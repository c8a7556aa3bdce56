/**
 * The fixed assessment catalogue: the nine scoring categories with their
 * weights, and the proficiency tiers with the score lookup over them.
 */
module Catalog {

  /** A scoring category; the weight is kept in tenths (1.2 is 12) so that sums are exact. */
  datatype Category = Category(key: string, name: string, icon: string, weightTenths: nat)

  const CATEGORIES: seq<Category> := [
    Category("documentation", "Документирование", "📝", 10),
    Category("modeling", "Моделирование процессов", "📊", 12),
    Category("api", "API Design", "🔌", 11),
    Category("database", "Базы данных", "🗄️", 11),
    Category("messaging", "Асинхронные взаимодействия", "📨", 10),
    Category("system_design", "Проектирование систем", "🏗️", 13),
    Category("security", "Безопасность", "🔒", 10),
    Category("analytical", "Аналитическое мышление", "🧠", 12),
    Category("communication", "Коммуникации", "💬", 10)
  ]

  function CategoryKeys(): seq<string> {
    seq(|CATEGORIES|, i requires 0 <= i < |CATEGORIES| => CATEGORIES[i].key)
  }

  predicate IsCategory(key: string) {
    exists i :: 0 <= i < |CATEGORIES| && CATEGORIES[i].key == key
  }

  function SumWeights(cs: seq<Category>): nat {
    if cs == [] then 0 else SumWeights(cs[..|cs| - 1]) + cs[|cs| - 1].weightTenths
  }

  /** Nine categories with distinct keys and positive weights summing to 9.9. */
  lemma CategoriesWellFormed()
    ensures |CATEGORIES| == 9
    ensures forall i, j :: 0 <= i < j < |CATEGORIES| ==> CATEGORIES[i].key != CATEGORIES[j].key
    ensures forall i :: 0 <= i < |CATEGORIES| ==> CATEGORIES[i].weightTenths > 0
    ensures SumWeights(CATEGORIES) == 99
  {
    var cs := CATEGORIES;
    assert SumWeights(cs[..0]) == 0;
    assert cs[..1][..0] == cs[..0];
    assert SumWeights(cs[..1]) == 10;
    assert cs[..2][..1] == cs[..1];
    assert SumWeights(cs[..2]) == 22;
    assert cs[..3][..2] == cs[..2];
    assert SumWeights(cs[..3]) == 33;
    assert cs[..4][..3] == cs[..3];
    assert SumWeights(cs[..4]) == 44;
    assert cs[..5][..4] == cs[..4];
    assert SumWeights(cs[..5]) == 54;
    assert cs[..6][..5] == cs[..5];
    assert SumWeights(cs[..6]) == 67;
    assert cs[..7][..6] == cs[..6];
    assert SumWeights(cs[..7]) == 77;
    assert cs[..8][..7] == cs[..7];
    assert SumWeights(cs[..8]) == 89;
    assert cs[..9][..8] == cs[..8];
    assert cs[..9] == cs;
  }

  /** A proficiency tier; the two score fields are the numbers of the table. */
  datatype Tier = Tier(level: string, description: string, nextLevel: string, minYears: string,
                       nextLevelScore: int, minScore: int)

  const LEVELS: seq<Tier> := [
    Tier("Senior", "Экспертный уровень системного аналитика", "Lead/Architect", "5+", 100, 85),
    Tier("Middle+", "Уверенный Middle с потенциалом роста", "Senior", "3-5", 85, 70),
    Tier("Middle", "Самостоятельный системный аналитик", "Middle+", "2-3", 70, 55),
    Tier("Junior+", "Развивающийся Junior", "Middle", "1-2", 55, 40),
    Tier("Junior", "Начинающий системный аналитик", "Junior+", "0-1", 40, 0)
  ]

  /** Index of the first tier whose minimum is at most `score`, or |tiers| when there is none. */
  function FirstAtMost(tiers: seq<Tier>, score: int): (i: nat)
    ensures i <= |tiers|
    ensures forall j :: 0 <= j < i ==> tiers[j].minScore > score
    ensures i < |tiers| ==> tiers[i].minScore <= score
  {
    if tiers == [] then 0
    else if score >= tiers[0].minScore then 0
    else 1 + FirstAtMost(tiers[1..], score)
  }

  /** Position in LEVELS of the tier `get_level` returns; the last tier when nothing matches. */
  function LevelIndex(score: int): (i: nat)
    ensures i < |LEVELS|
  {
    var i := FirstAtMost(LEVELS, score);
    if i < |LEVELS| then i else |LEVELS| - 1
  }

  /** `get_level(score)`. */
  function GetLevel(score: int): Tier {
    LEVELS[LevelIndex(score)]
  }

  /** Tier minima strictly decrease down the table, ending at 0. */
  lemma MinScoresDecrease()
    ensures forall i, j :: 0 <= i < j < |LEVELS| ==> LEVELS[i].minScore > LEVELS[j].minScore
    ensures LEVELS[|LEVELS| - 1].minScore == 0
  {
  }

  /**
   * Every non-negative score matches a tier, and the tier returned is the
   * first in table order whose minimum it reaches; a negative score falls
   * back to the last tier.
   */
  lemma GetLevelIsFirstMatch(score: int)
    ensures score >= 0 ==> FirstAtMost(LEVELS, score) < |LEVELS|
    ensures score >= 0 ==> GetLevel(score).minScore <= score
    ensures forall j :: 0 <= j < LevelIndex(score) ==> LEVELS[j].minScore > score
    ensures score < 0 ==> GetLevel(score) == LEVELS[|LEVELS| - 1]
  {
    if score >= 0 {
      assert LEVELS[4].minScore <= score;
    }
  }

  /** The lookup as plain thresholds: an independent statement of the whole table. */
  function LevelNameByThreshold(score: int): string {
    if score >= 85 then "Senior"
    else if score >= 70 then "Middle+"
    else if score >= 55 then "Middle"
    else if score >= 40 then "Junior+"
    else "Junior"
  }

  lemma GetLevelMatchesThresholds(score: int)
    ensures GetLevel(score).level == LevelNameByThreshold(score)
  {
    var i := LevelIndex(score);
    GetLevelIsFirstMatch(score);
    assert LEVELS[0].minScore == 85 && LEVELS[1].minScore == 70 && LEVELS[2].minScore == 55;
    assert LEVELS[3].minScore == 40 && LEVELS[4].minScore == 0;
    if score >= 85 {
      assert i == 0;
    } else if score >= 70 {
      assert i == 1;
    } else if score >= 55 {
      assert i == 2;
    } else if score >= 40 {
      assert i == 3;
    } else {
      assert i == 4;
    }
  }

  /** Boundaries of the tiers. */
  lemma LevelBoundaries()
    ensures GetLevel(85).level == "Senior" && GetLevel(84).level == "Middle+"
    ensures GetLevel(70).level == "Middle+" && GetLevel(69).level == "Middle"
    ensures GetLevel(55).level == "Middle" && GetLevel(54).level == "Junior+"
    ensures GetLevel(40).level == "Junior+" && GetLevel(39).level == "Junior"
    ensures GetLevel(0).level == "Junior" && GetLevel(-1).level == "Junior"
  {
    GetLevelMatchesThresholds(85); GetLevelMatchesThresholds(84);
    GetLevelMatchesThresholds(70); GetLevelMatchesThresholds(69);
    GetLevelMatchesThresholds(55); GetLevelMatchesThresholds(54);
    GetLevelMatchesThresholds(40); GetLevelMatchesThresholds(39);
    GetLevelMatchesThresholds(0); GetLevelMatchesThresholds(-1);
  }

  /** A higher score never yields a lower tier (tiers higher up the table are better). */
  lemma GetLevelMonotone(s1: int, s2: int)
    requires s1 <= s2
    ensures LevelIndex(s2) <= LevelIndex(s1)
  {
    var i1 := FirstAtMost(LEVELS, s1);
    if i1 < |LEVELS| {
      assert LEVELS[i1].minScore <= s2;
    }
  }

  /** Each tier below the top names the tier directly above it, and that tier's minimum. */
  lemma NextLevelLinks()
    ensures forall i :: 1 <= i < |LEVELS| ==>
      LEVELS[i].nextLevel == LEVELS[i - 1].level && LEVELS[i].nextLevelScore == LEVELS[i - 1].minScore
  {
  }
}
