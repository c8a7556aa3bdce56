/**
 * The quiz endpoints: quiz-id normalisation, question retrieval in the
 * quiz's own order, the level lookup over a quiz's level_config, and the
 * quiz_attempts table with the rules for starting and submitting attempts.
 */
module Quizzes {
  import opened Wrappers
  import opened Ids
  import opened Text
  import opened Time
  import opened Catalog
  import opened Scoring

  // ---------------------------------------------------------------------
  // Quiz ids
  // ---------------------------------------------------------------------

  const QUIZ_PREFIX: string := "quiz:"

  /** A bare slug and a prefixed id name the same quiz document. */
  function NormalizeQuizId(id: string): (r: string)
    ensures StartsWith(r, QUIZ_PREFIX)
    ensures r == id <==> StartsWith(id, QUIZ_PREFIX)
    ensures |id| <= |r| && r[|r| - |id|..] == id
  {
    if StartsWith(id, QUIZ_PREFIX) then id else QUIZ_PREFIX + id
  }

  lemma NormalizeIdempotent(id: string)
    ensures NormalizeQuizId(NormalizeQuizId(id)) == NormalizeQuizId(id)
  {
  }

  // ---------------------------------------------------------------------
  // Quiz documents
  // ---------------------------------------------------------------------

  /** One level_config entry; `minScore` is None when the entry has no min_score. */
  datatype LevelCfg = LevelCfg(minScore: Option<int>, icon: string, description: string,
                               nextLevel: string, minYears: string)

  datatype CategoryCfg = CategoryCfg(name: string, icon: string, weightTenths: nat, description: string)

  /**
   * A quiz_content document. The two configurations are its dicts in key
   * order (keys are distinct); None stands for an absent passing_score or
   * settings.max_attempts.
   */
  datatype QuizDoc = QuizDoc(id: string, questionIds: seq<string>, passingScore: Option<int>,
                             categories: seq<(string, CategoryCfg)>,
                             levelConfig: seq<(string, LevelCfg)>,
                             maxAttempts: Option<int>)

  /** The HTTP errors the endpoints raise; an uncaught exception is a ServerError. */
  datatype QuizError =
    | QuizNotFound(quizId: string)
    | NoQuestions(quizId: string)
    | QuestionsNotFound(missing: set<string>)
    | MaxAttemptsReached(maxAttempts: int)
    | InvalidAttemptId
    | AttemptNotFound
    | AlreadyFinished(status: Status)
    | ServerError

  function StatusCode(e: QuizError): int {
    match e
    case QuizNotFound(_) => 404
    case NoQuestions(_) => 404
    case QuestionsNotFound(_) => 404
    case MaxAttemptsReached(_) => 400
    case InvalidAttemptId => 400
    case AttemptNotFound => 404
    case AlreadyFinished(_) => 400
    case ServerError => 500
  }

  // ---------------------------------------------------------------------
  // Questions of a quiz
  // ---------------------------------------------------------------------

  /** `find({"id": {"$in": ids}})`: the stored questions whose id is listed, in store order. */
  function Fetch(store: seq<Question>, ids: seq<string>): seq<Question> {
    if store == [] then []
    else (if store[0].id in ids then [store[0]] else []) + Fetch(store[1..], ids)
  }

  lemma {:induction false} FetchMembers(store: seq<Question>, ids: seq<string>, q: Question)
    ensures q in Fetch(store, ids) <==> q in store && q.id in ids
  {
    if store != [] {
      FetchMembers(store[1..], ids, q);
      assert store == [store[0]] + store[1..];
    }
  }

  /** `{q["id"]: q for q in qs}`: a later question with the same id replaces an earlier one. */
  function IdMap(qs: seq<Question>): map<string, Question> {
    if qs == [] then map[] else IdMap(qs[..|qs| - 1])[qs[|qs| - 1].id := qs[|qs| - 1]]
  }

  lemma {:induction false} IdMapEntries(qs: seq<Question>, id: string)
    ensures id in IdMap(qs) <==> exists q :: q in qs && q.id == id
    ensures id in IdMap(qs) ==> IdMap(qs)[id] in qs && IdMap(qs)[id].id == id
  {
    if qs != [] {
      var init := qs[..|qs| - 1];
      IdMapEntries(init, id);
      assert qs == init + [qs[|qs| - 1]];
    }
  }

  /** `[m[qid] for qid in ids if qid in m]`. */
  function InIdOrder(m: map<string, Question>, ids: seq<string>): seq<Question> {
    if ids == [] then []
    else (if ids[0] in m then [m[ids[0]]] else []) + InIdOrder(m, ids[1..])
  }

  lemma {:induction false} InIdOrderComplete(m: map<string, Question>, ids: seq<string>)
    requires forall k :: 0 <= k < |ids| ==> ids[k] in m
    ensures |InIdOrder(m, ids)| == |ids|
    ensures forall k :: 0 <= k < |ids| ==> InIdOrder(m, ids)[k] == m[ids[k]]
  {
    if ids != [] {
      InIdOrderComplete(m, ids[1..]);
    }
  }

  function FoundIds(qs: seq<Question>): set<string> {
    set q | q in qs :: q.id
  }

  /** `set(ids) - {q["id"] for q in found}`. */
  function MissingIds(ids: seq<string>, found: seq<Question>): set<string> {
    set id | id in ids && id !in FoundIds(found)
  }

  /** Listed ids that no stored question carries. */
  predicate Unstored(store: seq<Question>, id: string) {
    forall q :: q in store ==> q.id != id
  }

  lemma MissingIdsAreUnstored(store: seq<Question>, ids: seq<string>, id: string)
    ensures id in MissingIds(ids, Fetch(store, ids)) <==> id in ids && Unstored(store, id)
  {
    var found := Fetch(store, ids);
    if id in ids && !Unstored(store, id) {
      var q :| q in store && q.id == id;
      FetchMembers(store, ids, q);
    }
    if id in ids && id in FoundIds(found) {
      var q :| q in found && q.id == id;
      FetchMembers(store, ids, q);
    }
  }

  /** The quiz a request names, and its question ids. */
  function QuizQuestionIds(quizzes: map<string, QuizDoc>, rawQuizId: string): Result<seq<string>, QuizError> {
    var quizId := NormalizeQuizId(rawQuizId);
    if quizId !in quizzes then Failure(QuizNotFound(quizId))
    else if quizzes[quizId].questionIds == [] then Failure(NoQuestions(quizId))
    else Success(quizzes[quizId].questionIds)
  }

  /**
   * GET /quizzes/{id}/questions as written: it detects missing questions by
   * comparing the number fetched with the number of listed ids.
   */
  function GetQuizQuestionsAsWritten(quizzes: map<string, QuizDoc>, store: seq<Question>, rawQuizId: string)
    : (r: Result<seq<Question>, QuizError>)
    ensures r.Failure? ==> StatusCode(r.error) == 404
    ensures r.Failure? && r.error.QuestionsNotFound? ==>
      NormalizeQuizId(rawQuizId) in quizzes && r.error.missing <= set id | id in quizzes[NormalizeQuizId(rawQuizId)].questionIds
  {
    var ids := QuizQuestionIds(quizzes, rawQuizId);
    if ids.Failure? then Failure(ids.error)
    else
      var found := Fetch(store, ids.value);
      if |found| != |ids.value| then Failure(QuestionsNotFound(MissingIds(ids.value, found)))
      else Success(InIdOrder(IdMap(found), ids.value))
  }

  /** GET /quizzes/{id}/questions, failing exactly when some listed id has no stored question. */
  function GetQuizQuestions(quizzes: map<string, QuizDoc>, store: seq<Question>, rawQuizId: string)
    : (r: Result<seq<Question>, QuizError>)
    ensures r.Failure? ==> StatusCode(r.error) == 404
    ensures r.Failure? && r.error.QuestionsNotFound? ==>
      NormalizeQuizId(rawQuizId) in quizzes && r.error.missing <= set id | id in quizzes[NormalizeQuizId(rawQuizId)].questionIds
    ensures r.Failure? && r.error.QuestionsNotFound? ==> r.error.missing != {}
  {
    var ids := QuizQuestionIds(quizzes, rawQuizId);
    if ids.Failure? then Failure(ids.error)
    else
      var found := Fetch(store, ids.value);
      if MissingIds(ids.value, found) != {} then Failure(QuestionsNotFound(MissingIds(ids.value, found)))
      else Success(InIdOrder(IdMap(found), ids.value))
  }

  /**
   * The questions come back one per listed id, in the quiz's order, each a
   * stored question; the call fails with a 404 exactly when the quiz is
   * unknown, lists no ids, or lists an id no stored question carries, and
   * then it names precisely the missing ids.
   */
  lemma GetQuizQuestionsSpec(quizzes: map<string, QuizDoc>, store: seq<Question>, rawQuizId: string)
    ensures var r := GetQuizQuestions(quizzes, store, rawQuizId);
            var quizId := NormalizeQuizId(rawQuizId);
            && (r.Failure? <==>
                  || quizId !in quizzes
                  || quizzes[quizId].questionIds == []
                  || exists id :: id in quizzes[quizId].questionIds && Unstored(store, id))
            && (r.Failure? ==> StatusCode(r.error) == 404)
            && (r.Failure? && r.error.QuestionsNotFound? ==>
                  r.error.missing != {} &&
                  forall id :: id in r.error.missing <==> id in quizzes[quizId].questionIds && Unstored(store, id))
            && (r.Success? ==>
                  var ids := quizzes[quizId].questionIds;
                  && |r.value| == |ids|
                  && forall k :: 0 <= k < |ids| ==> r.value[k].id == ids[k] && r.value[k] in store)
  {
    var quizId := NormalizeQuizId(rawQuizId);
    if quizId in quizzes && quizzes[quizId].questionIds != [] {
      var ids := quizzes[quizId].questionIds;
      var found := Fetch(store, ids);
      forall id | true
        ensures id in MissingIds(ids, found) <==> id in ids && Unstored(store, id)
      {
        MissingIdsAreUnstored(store, ids, id);
      }
      if MissingIds(ids, found) == {} {
        var m := IdMap(found);
        forall k | 0 <= k < |ids|
          ensures ids[k] in m && m[ids[k]].id == ids[k] && m[ids[k]] in store
        {
          assert ids[k] !in MissingIds(ids, found);
          var q :| q in found && q.id == ids[k];
          IdMapEntries(found, ids[k]);
          FetchMembers(store, ids, m[ids[k]]);
        }
        InIdOrderComplete(m, ids);
      }
    }
  }

  /** As written, a quiz listing one stored question twice is refused, naming no missing id. */
  lemma RepeatedIdRefused(quizzes: map<string, QuizDoc>, rawQuizId: string, q: Question)
    requires NormalizeQuizId(rawQuizId) in quizzes
    requires quizzes[NormalizeQuizId(rawQuizId)].questionIds == [q.id, q.id]
    ensures GetQuizQuestionsAsWritten(quizzes, [q], rawQuizId) == Failure(QuestionsNotFound({}))
    ensures GetQuizQuestions(quizzes, [q], rawQuizId) == Success([q, q])
  {
    var ids := [q.id, q.id];
    assert Fetch([q], ids) == [q];
    assert MissingIds(ids, [q]) == {} by {
      assert FoundIds([q]) == {q.id};
    }
    assert IdMap([q]) == map[q.id := q] by {
      assert [q][..0] == [];
    }
    assert ids[1..] == [q.id] && [q.id][1..] == [];
    assert InIdOrder(map[q.id := q], [q.id]) == [q];
    assert InIdOrder(map[q.id := q], ids) == [q, q];
    assert QuizQuestionIds(quizzes, rawQuizId) == Success(ids);
  }

  /**
   * As written, two stored questions sharing an id hide a missing one: the
   * counts agree, so the call succeeds with fewer questions than listed.
   */
  lemma StoredDuplicateHidesMissing(quizzes: map<string, QuizDoc>, rawQuizId: string,
                                    q1: Question, q2: Question, other: string)
    requires q1.id == q2.id && other != q1.id
    requires NormalizeQuizId(rawQuizId) in quizzes
    requires quizzes[NormalizeQuizId(rawQuizId)].questionIds == [q1.id, other]
    ensures GetQuizQuestionsAsWritten(quizzes, [q1, q2], rawQuizId) == Success([q2])
    ensures GetQuizQuestions(quizzes, [q1, q2], rawQuizId) == Failure(QuestionsNotFound({other}))
  {
    var ids := [q1.id, other];
    var store := [q1, q2];
    assert store[1..] == [q2] && [q2][1..] == [];
    assert Fetch([q2], ids) == [q2];
    assert Fetch(store, ids) == store;
    assert FoundIds(store) == {q1.id};
    assert MissingIds(ids, store) == {other};
    assert store[..1] == [q1] && [q1][..0] == [];
    assert IdMap([q1]) == map[q1.id := q1];
    assert IdMap(store) == map[q1.id := q2];
    var m := map[q1.id := q2];
    assert ids[1..] == [other] && [other][1..] == [];
    assert InIdOrder(m, [other]) == [];
    assert InIdOrder(m, ids) == [q2];
  }

  // ---------------------------------------------------------------------
  // Level lookup in a quiz's level_config
  // ---------------------------------------------------------------------

  function MinScoreOf(c: LevelCfg): int {
    c.minScore.GetOr(0)
  }

  predicate Reaches(score: int, entry: (string, LevelCfg)) {
    score >= MinScoreOf(entry.1)
  }

  /** The key of the last entry, in config order, whose minimum the score reaches. */
  function LastMatch(cfg: seq<(string, LevelCfg)>, score: int): Option<string> {
    if cfg == [] then None
    else if Reaches(score, cfg[|cfg| - 1]) then Some(cfg[|cfg| - 1].0)
    else LastMatch(cfg[..|cfg| - 1], score)
  }

  /** LastMatch names an entry the score reaches and after which no entry is reached; None when none is. */
  lemma {:induction false} LastMatchSpec(cfg: seq<(string, LevelCfg)>, score: int)
    ensures LastMatch(cfg, score).None? <==> forall j :: 0 <= j < |cfg| ==> !Reaches(score, cfg[j])
    ensures LastMatch(cfg, score).Some? ==>
      exists j :: 0 <= j < |cfg| && cfg[j].0 == LastMatch(cfg, score).value && Reaches(score, cfg[j]) &&
        forall l :: j < l < |cfg| ==> !Reaches(score, cfg[l])
  {
    if cfg != [] && !Reaches(score, cfg[|cfg| - 1]) {
      var init := cfg[..|cfg| - 1];
      LastMatchSpec(init, score);
      if LastMatch(init, score).Some? {
        var j :| 0 <= j < |init| && init[j].0 == LastMatch(init, score).value && Reaches(score, init[j]) &&
          forall l :: j < l < |init| ==> !Reaches(score, init[l]);
        assert cfg[j] == init[j];
      } else {
        assert forall j :: 0 <= j < |init| ==> cfg[j] == init[j];
      }
    }
  }

  /** An entry the score reaches with no reached entry after it is the last match. */
  lemma {:induction false} LastMatchAt(cfg: seq<(string, LevelCfg)>, score: int, j: nat)
    requires j < |cfg| && Reaches(score, cfg[j])
    requires forall l :: j < l < |cfg| ==> !Reaches(score, cfg[l])
    ensures LastMatch(cfg, score) == Some(cfg[j].0)
  {
    if j < |cfg| - 1 {
      var init := cfg[..|cfg| - 1];
      assert init[j] == cfg[j];
      LastMatchAt(init, score, j);
    }
  }

  /**
   * submit_quiz's lookup as written: a forward loop keeps the last key whose
   * minimum is reached and, when that key is non-empty, a reversed loop
   * looks for the last such key again.
   */
  method LevelFromConfigAsWritten(cfg: seq<(string, LevelCfg)>, score: int) returns (name: Option<string>)
    ensures name == LastMatch(cfg, score)
  {
    name := None;
    for i := 0 to |cfg|
      invariant name == LastMatch(cfg[..i], score)
    {
      assert cfg[..i + 1][..i] == cfg[..i];
      if Reaches(score, cfg[i]) {
        name := Some(cfg[i].0);
      }
    }
    assert cfg[..|cfg|] == cfg;
    if name.Some? && name.value != "" {
      var j := |cfg|;
      while j > 0
        invariant 0 <= j <= |cfg|
        invariant forall l :: j <= l < |cfg| ==> !Reaches(score, cfg[l])
        invariant name == LastMatch(cfg, score)
      {
        j := j - 1;
        if Reaches(score, cfg[j]) {
          LastMatchAt(cfg, score, j);
          name := Some(cfg[j].0);
          break;
        }
      }
    }
  }

  /** Index of the reached entry with the greatest minimum, the earliest among equals. */
  function BestMatch(cfg: seq<(string, LevelCfg)>, score: int): (r: Option<nat>)
    ensures r.Some? ==> r.value < |cfg| && Reaches(score, cfg[r.value])
  {
    if cfg == [] then None
    else
      var r := BestMatch(cfg[..|cfg| - 1], score);
      var last := cfg[|cfg| - 1];
      if Reaches(score, last) && (r.None? || MinScoreOf(cfg[r.value].1) < MinScoreOf(last.1)) then Some(|cfg| - 1)
      else r
  }

  lemma {:induction false} BestMatchSpec(cfg: seq<(string, LevelCfg)>, score: int)
    ensures BestMatch(cfg, score).None? <==> forall j :: 0 <= j < |cfg| ==> !Reaches(score, cfg[j])
    ensures BestMatch(cfg, score).Some? ==>
      forall j :: 0 <= j < |cfg| && Reaches(score, cfg[j]) ==>
        MinScoreOf(cfg[j].1) <= MinScoreOf(cfg[BestMatch(cfg, score).value].1)
  {
    if cfg != [] {
      var init := cfg[..|cfg| - 1];
      BestMatchSpec(init, score);
      assert forall j :: 0 <= j < |init| ==> cfg[j] == init[j];
    }
  }

  /** The key of the highest level the score reaches. */
  function HighestMatch(cfg: seq<(string, LevelCfg)>, score: int): Option<string> {
    var r := BestMatch(cfg, score);
    if r.Some? then Some(cfg[r.value].0) else None
  }

  /** The highest reached level: no reached entry has a greater minimum, and None only when nothing is reached. */
  lemma HighestMatchSpec(cfg: seq<(string, LevelCfg)>, score: int)
    ensures HighestMatch(cfg, score).None? <==> forall j :: 0 <= j < |cfg| ==> !Reaches(score, cfg[j])
    ensures HighestMatch(cfg, score).Some? ==>
      exists i :: 0 <= i < |cfg| && cfg[i].0 == HighestMatch(cfg, score).value && Reaches(score, cfg[i]) &&
        forall j :: 0 <= j < |cfg| && Reaches(score, cfg[j]) ==> MinScoreOf(cfg[j].1) <= MinScoreOf(cfg[i].1)
  {
    BestMatchSpec(cfg, score);
  }

  /** The level lookup with the evidently intended meaning: one pass keeping the highest reached level. */
  method LevelFromConfig(cfg: seq<(string, LevelCfg)>, score: int) returns (name: Option<string>)
    ensures name == HighestMatch(cfg, score)
  {
    var best: Option<nat> := None;
    for i := 0 to |cfg|
      invariant best == BestMatch(cfg[..i], score)
    {
      assert cfg[..i + 1][..i] == cfg[..i];
      if Reaches(score, cfg[i]) && (best.None? || MinScoreOf(cfg[best.value].1) < MinScoreOf(cfg[i].1)) {
        best := Some(i);
      }
    }
    assert cfg[..|cfg|] == cfg;
    name := if best.Some? then Some(cfg[best.value].0) else None;
  }

  // ---------------------------------------------------------------------
  // Attempts
  // ---------------------------------------------------------------------

  /** The statuses an attempt can have. */
  datatype Status = InProgress | Completed | Abandoned

  /**
   * A quiz_attempts row. The JSON columns are kept as the values they
   * encode: category_scores as (key, score) pairs in category order.
   */
  datatype Attempt = Attempt(
    id: Uuid, userId: Uuid, quizId: string, status: Status,
    score: Option<int>, level: Option<string>, passed: Option<bool>,
    startedAt: Instant, completedAt: Option<Instant>, timeSpentSeconds: Option<int>,
    categoryScores: Option<seq<(string, int)>>,
    strengths: Option<seq<NamedScore>>, weaknesses: Option<seq<NamedScore>>,
    resultContentId: Option<string>, deletedAt: Option<Instant>)

  function NewAttempt(id: Uuid, userId: Uuid, quizId: string, now: Instant): Attempt {
    Attempt(id, userId, quizId, InProgress, None, None, None, now, None, None, None, None, None, None, None)
  }

  /** The primary key: attempt ids are distinct. */
  predicate UniqueIds(rows: seq<Attempt>) {
    forall i, j :: 0 <= i < j < |rows| ==> rows[i].id != rows[j].id
  }

  predicate HasId(rows: seq<Attempt>, id: Uuid) {
    exists i :: 0 <= i < |rows| && rows[i].id == id
  }

  predicate Live(a: Attempt, userId: Uuid, quizId: string) {
    a.userId == userId && a.quizId == quizId && a.deletedAt.None?
  }

  /** The number of the user's non-deleted attempts at the quiz. */
  function LiveCount(rows: seq<Attempt>, userId: Uuid, quizId: string): nat {
    if rows == [] then 0
    else LiveCount(rows[..|rows| - 1], userId, quizId) + (if Live(rows[|rows| - 1], userId, quizId) then 1 else 0)
  }

  /** `if max_attempts:`: None and 0 both mean unlimited. */
  predicate Limited(maxAttempts: Option<int>) {
    maxAttempts.Some? && maxAttempts.value != 0
  }

  /** The attempt id and the quiz's questions in its own order. */
  datatype Started = Started(attemptId: Uuid, questions: seq<Question>)

  /** POST /quizzes/{id}/start: the response and the table afterwards. */
  function StartSpec(rows: seq<Attempt>, quizzes: map<string, QuizDoc>, store: seq<Question>,
                     userId: Uuid, rawQuizId: string, newId: Uuid, now: Instant)
    : (r: (Result<Started, QuizError>, seq<Attempt>))
    ensures r.0.Failure? ==> r.1 == rows
    ensures r.0.Success? ==>
      && |r.1| == |rows| + 1 && r.1[..|rows|] == rows
      && r.1[|rows|].id == newId && r.1[|rows|].userId == userId && r.1[|rows|].status == InProgress
      && r.0.value.attemptId == newId
  {
    var quizId := NormalizeQuizId(rawQuizId);
    if quizId !in quizzes then (Failure(QuizNotFound(quizId)), rows)
    else
      var doc := quizzes[quizId];
      if Limited(doc.maxAttempts) && LiveCount(rows, userId, quizId) >= doc.maxAttempts.value then
        (Failure(MaxAttemptsReached(doc.maxAttempts.value)), rows)
      else if HasId(rows, newId) then (Failure(ServerError), rows)
      else
        var questions := InIdOrder(IdMap(Fetch(store, doc.questionIds)), doc.questionIds);
        (Success(Started(newId, questions)), rows + [NewAttempt(newId, userId, quizId, now)])
  }

  /** The first live row with the given id, as the submit query selects it. */
  function FindLive(rows: seq<Attempt>, id: Uuid, userId: Uuid, quizId: string): (r: Option<nat>)
    ensures r.Some? ==> r.value < |rows| && rows[r.value].id == id && Live(rows[r.value], userId, quizId)
    ensures r.None? ==> forall i :: 0 <= i < |rows| ==> !(rows[i].id == id && Live(rows[i], userId, quizId))
    ensures r.Some? ==> forall i :: 0 <= i < r.value ==> !(rows[i].id == id && Live(rows[i], userId, quizId))
  {
    if rows == [] then None
    else if rows[0].id == id && Live(rows[0], userId, quizId) then Some(0)
    else
      var r := FindLive(rows[1..], id, userId, quizId);
      if r.Some? then Some(r.value + 1) else None
  }

  const DEFAULT_PASSING_SCORE := 50

  function PassingScore(doc: QuizDoc): int {
    doc.passingScore.GetOr(DEFAULT_PASSING_SCORE)
  }

  /**
   * The level an attempt records: the last reached key of the quiz's
   * level_config when it has entries (the lookup as written), else the
   * lower-cased tier name.
   */
  function LevelFor(doc: QuizDoc, s: Scores): (r: Option<string>)
    ensures doc.levelConfig == [] ==> r.Some?
    ensures doc.levelConfig != [] ==>
      (r.None? <==> forall j :: 0 <= j < |doc.levelConfig| ==> !Reaches(s.overall, doc.levelConfig[j]))
    ensures doc.levelConfig != [] && r.Some? ==>
      exists j :: 0 <= j < |doc.levelConfig| && doc.levelConfig[j].0 == r.value && Reaches(s.overall, doc.levelConfig[j])
  {
    LastMatchSpec(doc.levelConfig, s.overall);
    if doc.levelConfig != [] then LastMatch(doc.levelConfig, s.overall) else Some(Lower(s.level.level))
  }

  /** `{k: v["score"] for k, v in categories.items()}`. */
  function CategoryScoreList(cs: seq<CategoryScore>): (r: seq<(string, int)>)
    ensures |r| == |cs|
  {
    seq(|cs|, i requires 0 <= i < |cs| => (cs[i].key, cs[i].score))
  }

  /** The row after a successful submission. */
  function Completion(a: Attempt, doc: QuizDoc, s: Scores, now: Instant, resultId: string): Attempt {
    a.(status := Completed, score := Some(s.overall), level := LevelFor(doc, s),
       passed := Some(s.overall >= PassingScore(doc)), completedAt := Some(now),
       timeSpentSeconds := Some(ElapsedSeconds(a.startedAt, now)),
       categoryScores := Some(CategoryScoreList(s.categories)),
       strengths := Some(s.strengths), weaknesses := Some(s.weaknesses),
       resultContentId := Some(resultId))
  }

  /** POST /quizzes/{id}/attempts/{attempt_id}/submit: the response and the table afterwards. */
  function SubmitSpec(rows: seq<Attempt>, quizzes: map<string, QuizDoc>, store: seq<Question>,
                      userId: Uuid, rawQuizId: string, rawAttemptId: string,
                      answers: map<string, string>, parseUuid: string -> Option<Uuid>,
                      now: Instant, resultId: string)
    : (r: (Result<Attempt, QuizError>, seq<Attempt>))
    ensures |r.1| == |rows|
    ensures r.0.Failure? ==> r.1 == rows
    ensures r.0.Success? ==> r.0.value.status == Completed && r.0.value.userId == userId
  {
    var quizId := NormalizeQuizId(rawQuizId);
    var id := parseUuid(rawAttemptId);
    if id.None? then (Failure(InvalidAttemptId), rows)
    else
      var found := FindLive(rows, id.value, userId, quizId);
      if found.None? then (Failure(AttemptNotFound), rows)
      else
        var a := rows[found.value];
        if a.status != InProgress then (Failure(AlreadyFinished(a.status)), rows)
        else if quizId !in quizzes then (Failure(QuizNotFound(quizId)), rows)
        else
          var doc := quizzes[quizId];
          var scores := Score(Fetch(store, doc.questionIds), answers);
          if scores.Failure? then (Failure(ServerError), rows)
          else
            var done := Completion(a, doc, scores.value, now, resultId);
            (Success(done), rows[found.value := done])
  }

  /** The quiz_attempts table. */
  class AttemptTable {
    var rows: seq<Attempt>

    predicate Valid()
      reads this
    {
      UniqueIds(rows)
    }

    constructor ()
      ensures Valid() && rows == []
    {
      rows := [];
    }

    method Start(quizzes: map<string, QuizDoc>, store: seq<Question>, userId: Uuid, rawQuizId: string,
                 newId: Uuid, now: Instant)
      returns (r: Result<Started, QuizError>)
      requires Valid()
      modifies this
      ensures Valid()
      ensures (r, rows) == StartSpec(old(rows), quizzes, store, userId, rawQuizId, newId, now)
    {
      var quizId := NormalizeQuizId(rawQuizId);
      if quizId !in quizzes {
        return Failure(QuizNotFound(quizId));
      }
      var doc := quizzes[quizId];
      var maxAttempts := doc.maxAttempts;
      if Limited(maxAttempts) {
        var existing := LiveCount(rows, userId, quizId);
        if existing >= maxAttempts.value {
          return Failure(MaxAttemptsReached(maxAttempts.value));
        }
      }
      if HasId(rows, newId) {
        return Failure(ServerError);
      }
      rows := rows + [NewAttempt(newId, userId, quizId, now)];
      var questions := InIdOrder(IdMap(Fetch(store, doc.questionIds)), doc.questionIds);
      r := Success(Started(newId, questions));
    }

    method Submit(quizzes: map<string, QuizDoc>, store: seq<Question>, userId: Uuid,
                  rawQuizId: string, rawAttemptId: string, answers: map<string, string>,
                  parseUuid: string -> Option<Uuid>, now: Instant, resultId: string)
      returns (r: Result<Attempt, QuizError>)
      requires Valid()
      modifies this
      ensures Valid()
      ensures (r, rows) == SubmitSpec(old(rows), quizzes, store, userId, rawQuizId, rawAttemptId,
                                      answers, parseUuid, now, resultId)
    {
      var quizId := NormalizeQuizId(rawQuizId);
      var id := parseUuid(rawAttemptId);
      if id.None? {
        return Failure(InvalidAttemptId);
      }
      var found := FindLive(rows, id.value, userId, quizId);
      if found.None? {
        return Failure(AttemptNotFound);
      }
      var i := found.value;
      var attempt := rows[i];
      if attempt.status != InProgress {
        return Failure(AlreadyFinished(attempt.status));
      }
      if quizId !in quizzes {
        return Failure(QuizNotFound(quizId));
      }
      var doc := quizzes[quizId];
      var questions := Fetch(store, doc.questionIds);
      var scores := CalculateScores(questions, answers);
      if scores.Failure? {
        return Failure(ServerError);
      }
      var s := scores.value;
      var level: Option<string>;
      if doc.levelConfig != [] {
        level := LevelFromConfigAsWritten(doc.levelConfig, s.overall);
      } else {
        level := Some(Lower(s.level.level));
      }
      var passed := s.overall >= PassingScore(doc);
      var timeSpent := ElapsedSeconds(attempt.startedAt, now);
      attempt := attempt.(status := Completed, score := Some(s.overall), level := level,
                          passed := Some(passed), completedAt := Some(now),
                          timeSpentSeconds := Some(timeSpent),
                          categoryScores := Some(CategoryScoreList(s.categories)),
                          strengths := Some(s.strengths), weaknesses := Some(s.weaknesses),
                          resultContentId := Some(resultId));
      ReplaceKeepsIds(rows, i, attempt);
      rows := rows[i := attempt];
      r := Success(attempt);
    }
  }

  lemma ReplaceKeepsIds(rows: seq<Attempt>, i: nat, a: Attempt)
    requires i < |rows| && a.id == rows[i].id && UniqueIds(rows)
    ensures UniqueIds(rows[i := a])
  {
  }
}
