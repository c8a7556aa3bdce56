/**
 * The one-off migration that writes the system-analyst quiz document from
 * the built-in catalogue: level-key normalisation, the categories and
 * level configurations, and the insert that is skipped when the document
 * already exists.
 */
module Migrate {
  import opened Wrappers
  import opened Dicts
  import opened Text
  import opened Catalog
  import opened Scoring
  import opened Quizzes

  // ---------------------------------------------------------------------
  // Level keys
  // ---------------------------------------------------------------------

  /** What one character of a tier name becomes in its key. */
  function KeyPiece(c: char): string {
    if c == '+' then "_plus" else if c == '/' then "_" else [LowerChar(c)]
  }

  /** The key of `name[i..]`, built one character at a time. */
  function KeyFrom(name: string, i: nat): string
    decreases |name| - i
  {
    if i >= |name| then [] else KeyPiece(name[i]) + KeyFrom(name, i + 1)
  }

  /** The dict key of a tier name; NormalizeLevelKeyIsReplaceChain relates it to the source's chain of calls. */
  function NormalizeLevelKey(name: string): string {
    KeyFrom(name, 0)
  }

  /** `name.lower().replace("+", "_plus").replace("/", "_")`, call by call. */
  function ReplaceChainKey(name: string): string {
    ReplaceChar(ReplaceChar(Lower(name), '+', "_plus"), '/', "_")
  }

  lemma ReplaceChainStep(c: char, rest: string)
    ensures ReplaceChainKey([c] + rest) == KeyPiece(c) + ReplaceChainKey(rest)
  {
    var l := LowerChar(c);
    assert Lower([c] + rest) == [l] + Lower(rest);
    ReplaceCharConcat([l], Lower(rest), '+', "_plus");
    ReplaceCharSingle(l, '+', "_plus");
    var p := if l == '+' then "_plus" else [l];
    ReplaceCharConcat(p, ReplaceChar(Lower(rest), '+', "_plus"), '/', "_");
    if l == '+' {
      ReplaceCharChars("_plus", '/', "_");
    } else {
      ReplaceCharSingle(l, '/', "_");
    }
  }

  lemma {:induction false} KeyFromReplaceChain(name: string, i: nat)
    requires i <= |name|
    ensures KeyFrom(name, i) == ReplaceChainKey(name[i..])
    decreases |name| - i
  {
    if i < |name| {
      KeyFromReplaceChain(name, i + 1);
      assert name[i..] == [name[i]] + name[i + 1..];
      ReplaceChainStep(name[i], name[i + 1..]);
    } else {
      assert Lower([]) == [];
    }
  }

  /** The one-pass key is exactly lower-casing followed by the two replacements. */
  lemma NormalizeLevelKeyIsReplaceChain(name: string)
    ensures NormalizeLevelKey(name) == ReplaceChainKey(name)
  {
    KeyFromReplaceChain(name, 0);
    assert name[0..] == name;
  }

  /** A normalised key contains neither '+' nor '/'. */
  lemma LevelKeyShape(name: string)
    ensures '+' !in NormalizeLevelKey(name) && '/' !in NormalizeLevelKey(name)
  {
    NormalizeLevelKeyIsReplaceChain(name);
    var once := ReplaceChar(Lower(name), '+', "_plus");
    ReplaceCharChars(Lower(name), '+', "_plus");
    ReplaceCharChars(once, '/', "_");
  }

  /** A name without '+' or '/' only loses its capitals. */
  lemma PlainName(n: string)
    requires '+' !in n && '/' !in n
    ensures NormalizeLevelKey(n) == Lower(n)
  {
    NormalizeLevelKeyIsReplaceChain(n);
    ReplaceCharChars(Lower(n), '+', "_plus");
    ReplaceCharChars(Lower(n), '/', "_");
  }

  /** Normalisation works piece by piece. */
  lemma KeyConcat(a: string, b: string)
    ensures NormalizeLevelKey(a + b) == NormalizeLevelKey(a) + NormalizeLevelKey(b)
  {
    NormalizeLevelKeyIsReplaceChain(a + b);
    NormalizeLevelKeyIsReplaceChain(a);
    NormalizeLevelKeyIsReplaceChain(b);
    assert Lower(a + b) == Lower(a) + Lower(b);
    ReplaceCharConcat(Lower(a), Lower(b), '+', "_plus");
    ReplaceCharConcat(ReplaceChar(Lower(a), '+', "_plus"), ReplaceChar(Lower(b), '+', "_plus"), '/', "_");
  }

  /** A trailing '+' becomes "_plus". */
  lemma PlusName(n: string)
    requires '+' !in n && '/' !in n
    ensures NormalizeLevelKey(n + "+") == Lower(n) + "_plus"
  {
    KeyConcat(n, "+");
    PlainName(n);
    assert NormalizeLevelKey("+") == "_plus";
  }

  /** An inner '/' becomes '_'. */
  lemma SlashName(a: string, b: string)
    requires '+' !in a && '/' !in a && '+' !in b && '/' !in b
    ensures NormalizeLevelKey(a + "/" + b) == Lower(a) + "_" + Lower(b)
  {
    KeyConcat(a + "/", b);
    KeyConcat(a, "/");
    PlainName(a);
    PlainName(b);
    assert NormalizeLevelKey("/") == "_";
  }

  // ---------------------------------------------------------------------
  // categories_config
  // ---------------------------------------------------------------------

  function CategoryEntry(c: Category): CategoryCfg {
    CategoryCfg(c.name, c.icon, c.weightTenths, "Категория " + c.name)
  }

  /** The dict the categories loop has built after the given categories. */
  function CategoriesConfigOf(cs: seq<Category>): seq<(string, CategoryCfg)> {
    if cs == [] then []
    else Put(CategoriesConfigOf(cs[..|cs| - 1]), cs[|cs| - 1].key, CategoryEntry(cs[|cs| - 1]))
  }

  method BuildCategoriesConfig() returns (cfg: seq<(string, CategoryCfg)>)
    ensures cfg == CategoriesConfigOf(CATEGORIES)
  {
    cfg := [];
    for i := 0 to |CATEGORIES|
      invariant cfg == CategoriesConfigOf(CATEGORIES[..i])
    {
      assert CATEGORIES[..i + 1][..i] == CATEGORIES[..i];
      var c := CATEGORIES[i];
      cfg := Put(cfg, c.key, CategoryEntry(c));
    }
    assert CATEGORIES[..|CATEGORIES|] == CATEGORIES;
  }

  lemma {:induction false} CategoriesConfigEntries(cs: seq<Category>)
    requires forall i, j :: 0 <= i < j < |cs| ==> cs[i].key != cs[j].key
    ensures |CategoriesConfigOf(cs)| == |cs|
    ensures forall i :: 0 <= i < |cs| ==> CategoriesConfigOf(cs)[i] == (cs[i].key, CategoryEntry(cs[i]))
  {
    if cs != [] {
      var init := cs[..|cs| - 1];
      var last := cs[|cs| - 1];
      CategoriesConfigEntries(init);
      var d := CategoriesConfigOf(init);
      PutFresh(d, last.key, CategoryEntry(last));
    }
  }

  /** categories_config has exactly the catalogue's keys, in its order, with name, icon and weight copied. */
  lemma CategoriesConfigMatchesCatalogue()
    ensures |CategoriesConfigOf(CATEGORIES)| == |CATEGORIES|
    ensures forall i :: 0 <= i < |CATEGORIES| ==>
      && CategoriesConfigOf(CATEGORIES)[i].0 == CATEGORIES[i].key
      && CategoriesConfigOf(CATEGORIES)[i].1.name == CATEGORIES[i].name
      && CategoriesConfigOf(CATEGORIES)[i].1.icon == CATEGORIES[i].icon
      && CategoriesConfigOf(CATEGORIES)[i].1.weightTenths == CATEGORIES[i].weightTenths
  {
    CategoriesWellFormed();
    CategoriesConfigEntries(CATEGORIES);
  }

  // ---------------------------------------------------------------------
  // level_config
  // ---------------------------------------------------------------------

  const DEFAULT_LEVEL_ICON := "📊"

  const LEVEL_ICONS: seq<(string, string)> := [
    ("Senior", "🏆"), ("Middle+", "📈"), ("Middle", "📊"), ("Junior+", "📝"), ("Junior", "🌱")
  ]

  /** `level_icons.get(name, "📊")`. */
  function IconFor(icons: seq<(string, string)>, name: string): string {
    if icons == [] then DEFAULT_LEVEL_ICON
    else if icons[0].0 == name then icons[0].1
    else IconFor(icons[1..], name)
  }

  lemma {:induction false} UnlistedLevelIcon(icons: seq<(string, string)>, name: string)
    requires forall i :: 0 <= i < |icons| ==> icons[i].0 != name
    ensures IconFor(icons, name) == DEFAULT_LEVEL_ICON
  {
    if icons != [] {
      UnlistedLevelIcon(icons[1..], name);
    }
  }

  function LevelEntry(t: Tier): LevelCfg {
    LevelCfg(Some(t.minScore), IconFor(LEVEL_ICONS, t.level), t.description,
             NormalizeLevelKey(t.nextLevel), t.minYears)
  }

  /** The dict the levels loop has built after the given tiers. */
  function LevelConfigOf(tiers: seq<Tier>): seq<(string, LevelCfg)> {
    if tiers == [] then []
    else Put(LevelConfigOf(tiers[..|tiers| - 1]), NormalizeLevelKey(tiers[|tiers| - 1].level),
             LevelEntry(tiers[|tiers| - 1]))
  }

  method BuildLevelConfig() returns (cfg: seq<(string, LevelCfg)>)
    ensures cfg == LevelConfigOf(LEVELS)
  {
    cfg := [];
    for i := 0 to |LEVELS|
      invariant cfg == LevelConfigOf(LEVELS[..i])
    {
      assert LEVELS[..i + 1][..i] == LEVELS[..i];
      var t := LEVELS[i];
      var key := NormalizeLevelKey(t.level);
      cfg := Put(cfg, key, LevelEntry(t));
    }
    assert LEVELS[..|LEVELS|] == LEVELS;
  }

  lemma {:induction false} LevelConfigEntries(tiers: seq<Tier>)
    requires forall i, j :: 0 <= i < j < |tiers| ==> NormalizeLevelKey(tiers[i].level) != NormalizeLevelKey(tiers[j].level)
    ensures |LevelConfigOf(tiers)| == |tiers|
    ensures forall i :: 0 <= i < |tiers| ==>
      LevelConfigOf(tiers)[i] == (NormalizeLevelKey(tiers[i].level), LevelEntry(tiers[i]))
  {
    if tiers != [] {
      var init := tiers[..|tiers| - 1];
      var last := tiers[|tiers| - 1];
      LevelConfigEntries(init);
      var d := LevelConfigOf(init);
      var key := NormalizeLevelKey(last.level);
      PutFresh(d, key, LevelEntry(last));
    }
  }

  lemma FirstKeyChar(name: string)
    requires |name| > 0 && name[0] != '+' && name[0] != '/'
    ensures |NormalizeLevelKey(name)| > 0 && NormalizeLevelKey(name)[0] == LowerChar(name[0])
  {
  }

  /** No two tiers share a key, so every tier gets its own entry in level_config. */
  lemma LevelKeysDistinct()
    ensures forall i, j :: 0 <= i < j < |LEVELS| ==>
      NormalizeLevelKey(LEVELS[i].level) != NormalizeLevelKey(LEVELS[j].level)
  {
    FirstKeyChar(LEVELS[0].level);
    FirstKeyChar(LEVELS[1].level);
    FirstKeyChar(LEVELS[2].level);
    FirstKeyChar(LEVELS[3].level);
    FirstKeyChar(LEVELS[4].level);
    assert NormalizeLevelKey(LEVELS[1].level) != NormalizeLevelKey(LEVELS[2].level);
    assert NormalizeLevelKey(LEVELS[3].level) != NormalizeLevelKey(LEVELS[4].level);
  }

  /** The bottom tier, Junior, is keyed "junior". */
  lemma JuniorKey()
    ensures NormalizeLevelKey(LEVELS[|LEVELS| - 1].level) == "junior"
  {
  }

  /**
   * level_config has one entry per tier, in LEVELS order, keyed by the
   * normalised tier name, with the tier's minimum and the normalised name
   * of the next tier.
   */
  lemma LevelConfigMatchesLevels()
    ensures |LevelConfigOf(LEVELS)| == |LEVELS|
    ensures forall i :: 0 <= i < |LEVELS| ==>
      && LevelConfigOf(LEVELS)[i].0 == NormalizeLevelKey(LEVELS[i].level)
      && LevelConfigOf(LEVELS)[i].1.minScore == Some(LEVELS[i].minScore)
      && LevelConfigOf(LEVELS)[i].1.nextLevel == NormalizeLevelKey(LEVELS[i].nextLevel)
  {
    LevelKeysDistinct();
    LevelConfigEntries(LEVELS);
  }

  // ---------------------------------------------------------------------
  // The level lookup over the migrated configuration
  // ---------------------------------------------------------------------

  /**
   * With the configuration the migration writes, the lookup as written in
   * submit_quiz settles on "junior" for every non-negative score: the last
   * entry is Junior with minimum 0, and the lookup keeps the last match.
   */
  lemma MigratedLookupAlwaysJunior(score: int)
    requires score >= 0
    ensures LastMatch(LevelConfigOf(LEVELS), score) == Some("junior")
  {
    var cfg := LevelConfigOf(LEVELS);
    LevelConfigMatchesLevels();
    JuniorKey();
    LastMatchAt(cfg, score, |cfg| - 1);
  }

  /**
   * With the migrated configuration the highest-match lookup names the key
   * of the tier get_level returns: the corrected lookup would record the
   * same level as the scoring engine.
   */
  lemma MigratedHighestMatchIsGetLevel(score: int)
    requires score >= 0
    ensures HighestMatch(LevelConfigOf(LEVELS), score) == Some(NormalizeLevelKey(GetLevel(score).level))
  {
    MigratedMinimaDecrease();
    MigratedFirstReached(score);
    HighestOfDecreasing(LevelConfigOf(LEVELS), score, LevelIndex(score));
    LevelConfigMatchesLevels();
  }

  /** The migrated minima strictly decrease down the configuration. */
  lemma MigratedMinimaDecrease()
    ensures var cfg := LevelConfigOf(LEVELS);
      forall j, k :: 0 <= j < k < |cfg| ==> MinScoreOf(cfg[j].1) > MinScoreOf(cfg[k].1)
  {
    var cfg := LevelConfigOf(LEVELS);
    LevelConfigMatchesLevels();
    MinScoresDecrease();
    forall j, k | 0 <= j < k < |cfg|
      ensures MinScoreOf(cfg[j].1) > MinScoreOf(cfg[k].1)
    {
      assert MinScoreOf(cfg[j].1) == LEVELS[j].minScore;
    }
  }

  /** The entry of get_level's tier is the first one a non-negative score reaches. */
  lemma MigratedFirstReached(score: int)
    requires score >= 0
    ensures var cfg := LevelConfigOf(LEVELS);
      var i := LevelIndex(score);
      i < |cfg| && Reaches(score, cfg[i]) && forall j :: 0 <= j < i ==> !Reaches(score, cfg[j])
  {
    var cfg := LevelConfigOf(LEVELS);
    var i := LevelIndex(score);
    LevelConfigMatchesLevels();
    GetLevelIsFirstMatch(score);
    assert MinScoreOf(cfg[i].1) == GetLevel(score).minScore;
    forall j | 0 <= j < i
      ensures !Reaches(score, cfg[j])
    {
      assert MinScoreOf(cfg[j].1) == LEVELS[j].minScore;
    }
  }

  /** When minima strictly decrease, the highest reached entry is the first reached one. */
  lemma HighestOfDecreasing(cfg: seq<(string, LevelCfg)>, score: int, i: nat)
    requires i < |cfg| && Reaches(score, cfg[i])
    requires forall j :: 0 <= j < i ==> !Reaches(score, cfg[j])
    requires forall j, k :: 0 <= j < k < |cfg| ==> MinScoreOf(cfg[j].1) > MinScoreOf(cfg[k].1)
    ensures HighestMatch(cfg, score) == Some(cfg[i].0)
  {
    BestMatchSpec(cfg, score);
  }

  // ---------------------------------------------------------------------
  // The quiz document and the skip-if-exists insert
  // ---------------------------------------------------------------------

  const MIGRATED_QUIZ_ID := "quiz:system-analyst-assessment"
  const MIGRATED_PASSING_SCORE := 50

  /** `[q["id"] for q in questions]`: every stored question's id, in fetch order. */
  function StoredIds(store: seq<Question>): (ids: seq<string>)
    ensures |ids| == |store|
    ensures forall i :: 0 <= i < |store| ==> ids[i] == store[i].id
  {
    seq(|store|, i requires 0 <= i < |store| => store[i].id)
  }

  function MigratedQuiz(store: seq<Question>): QuizDoc {
    QuizDoc(MIGRATED_QUIZ_ID, StoredIds(store), Some(MIGRATED_PASSING_SCORE),
            CategoriesConfigOf(CATEGORIES), LevelConfigOf(LEVELS), None)
  }

  /** The quiz_content collection after the migration. */
  function MigrateSpec(docs: map<string, QuizDoc>, store: seq<Question>): map<string, QuizDoc> {
    if MIGRATED_QUIZ_ID in docs then docs else docs[MIGRATED_QUIZ_ID := MigratedQuiz(store)]
  }

  /**
   * Running the migration twice leaves what running it once left, whatever
   * the questions collection holds the second time; the stored quiz has
   * unlimited attempts and a passing score of 50.
   */
  lemma MigrateIdempotent(docs: map<string, QuizDoc>, store: seq<Question>, store2: seq<Question>)
    ensures MigrateSpec(MigrateSpec(docs, store), store2) == MigrateSpec(docs, store)
    ensures MIGRATED_QUIZ_ID in MigrateSpec(docs, store)
    ensures MIGRATED_QUIZ_ID !in docs ==>
      && MigrateSpec(docs, store)[MIGRATED_QUIZ_ID].questionIds == StoredIds(store)
      && !Limited(MigrateSpec(docs, store)[MIGRATED_QUIZ_ID].maxAttempts)
      && PassingScore(MigrateSpec(docs, store)[MIGRATED_QUIZ_ID]) == 50
  {
  }

  /** The quiz_content collection. */
  class QuizContent {
    var docs: map<string, QuizDoc>

    constructor (initial: map<string, QuizDoc>)
      ensures docs == initial
    {
      docs := initial;
    }

    /** migrate_quiz_content(): inserts the quiz document unless one with its id exists. */
    method MigrateQuizContent(store: seq<Question>)
      modifies this
      ensures docs == MigrateSpec(old(docs), store)
    {
      if MIGRATED_QUIZ_ID in docs {
        return;
      }
      var questionIds := StoredIds(store);
      var categoriesConfig := BuildCategoriesConfig();
      var levelConfig := BuildLevelConfig();
      var quiz := QuizDoc(MIGRATED_QUIZ_ID, questionIds, Some(MIGRATED_PASSING_SCORE),
                          categoriesConfig, levelConfig, None);
      docs := docs[MIGRATED_QUIZ_ID := quiz];
    }
  }
}
