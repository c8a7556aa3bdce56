/**
 * What the attempt endpoints promise: a start is refused once the caller
 * has used up max_attempts and otherwise adds exactly one in-progress
 * attempt; a submit completes exactly the caller's own in-progress attempt,
 * at most once, and a refused request changes nothing.
 */
module QuizFacts {
  import opened Wrappers
  import opened Ids
  import opened Time
  import opened Catalog
  import opened Scoring
  import opened ScoringFacts
  import opened Quizzes
  import opened Text
  import Migrate

  // ---------------------------------------------------------------------
  // Starting an attempt
  // ---------------------------------------------------------------------

  lemma {:induction false} LiveCountAppend(rows: seq<Attempt>, a: Attempt, userId: Uuid, quizId: string)
    ensures LiveCount(rows + [a], userId, quizId)
      == LiveCount(rows, userId, quizId) + (if Live(a, userId, quizId) then 1 else 0)
  {
    assert (rows + [a])[..|rows|] == rows;
  }

  /**
   * A start succeeds exactly when the quiz exists, the caller is under a
   * truthy max_attempts and the new id is free; it then appends one
   * in-progress attempt of the caller at the normalised quiz id, started
   * now, which adds one to the caller's count for that quiz and to nobody
   * else's. A refused start leaves the table as it was.
   */
  lemma StartOutcome(rows: seq<Attempt>, quizzes: map<string, QuizDoc>, store: seq<Question>,
                     userId: Uuid, rawQuizId: string, newId: Uuid, now: Instant,
                     otherUser: Uuid, otherQuiz: string)
    ensures var (r, after) := StartSpec(rows, quizzes, store, userId, rawQuizId, newId, now);
            var quizId := NormalizeQuizId(rawQuizId);
            && (r.Failure? ==> after == rows)
            && (r.Failure? && r.error.MaxAttemptsReached? <==>
                  quizId in quizzes && Limited(quizzes[quizId].maxAttempts) &&
                  LiveCount(rows, userId, quizId) >= quizzes[quizId].maxAttempts.value)
            && (r.Success? <==>
                  quizId in quizzes && !HasId(rows, newId) &&
                  !(Limited(quizzes[quizId].maxAttempts) &&
                    LiveCount(rows, userId, quizId) >= quizzes[quizId].maxAttempts.value))
            && (r.Success? ==>
                  && |after| == |rows| + 1 && after[..|rows|] == rows
                  && after[|rows|].id == newId == r.value.attemptId
                  && after[|rows|].userId == userId && after[|rows|].quizId == quizId
                  && after[|rows|].status == InProgress && after[|rows|].startedAt == now
                  && after[|rows|].score.None? && after[|rows|].completedAt.None?
                  && LiveCount(after, userId, quizId) == LiveCount(rows, userId, quizId) + 1
                  && ((otherUser, otherQuiz) != (userId, quizId) ==>
                        LiveCount(after, otherUser, otherQuiz) == LiveCount(rows, otherUser, otherQuiz)))
  {
    var (r, after) := StartSpec(rows, quizzes, store, userId, rawQuizId, newId, now);
    var quizId := NormalizeQuizId(rawQuizId);
    if r.Success? {
      var a := NewAttempt(newId, userId, quizId, now);
      assert after == rows + [a];
      assert after[..|rows|] == rows;
      LiveCountAppend(rows, a, userId, quizId);
      LiveCountAppend(rows, a, otherUser, otherQuiz);
    }
  }

  /** A start that succeeds under a truthy max_attempts never takes the caller past it. */
  lemma StartWithinLimit(rows: seq<Attempt>, quizzes: map<string, QuizDoc>, store: seq<Question>,
                         userId: Uuid, rawQuizId: string, newId: Uuid, now: Instant)
    requires StartSpec(rows, quizzes, store, userId, rawQuizId, newId, now).0.Success?
    requires Limited(quizzes[NormalizeQuizId(rawQuizId)].maxAttempts)
    ensures LiveCount(StartSpec(rows, quizzes, store, userId, rawQuizId, newId, now).1, userId, NormalizeQuizId(rawQuizId))
      <= quizzes[NormalizeQuizId(rawQuizId)].maxAttempts.value
  {
    StartOutcome(rows, quizzes, store, userId, rawQuizId, newId, now, userId, NormalizeQuizId(rawQuizId));
  }

  /** A quiz whose max_attempts is None or 0 never refuses a start for the count. */
  lemma UnlimitedNeverRefuses(rows: seq<Attempt>, quizzes: map<string, QuizDoc>, store: seq<Question>,
                              userId: Uuid, rawQuizId: string, newId: Uuid, now: Instant)
    requires NormalizeQuizId(rawQuizId) in quizzes
    requires quizzes[NormalizeQuizId(rawQuizId)].maxAttempts in {None, Some(0)}
    ensures StartSpec(rows, quizzes, store, userId, rawQuizId, newId, now).0.Success? <==> !HasId(rows, newId)
  {
  }

  /** A start keeps attempt ids distinct. */
  lemma StartKeepsIdsUnique(rows: seq<Attempt>, quizzes: map<string, QuizDoc>, store: seq<Question>,
                            userId: Uuid, rawQuizId: string, newId: Uuid, now: Instant)
    requires UniqueIds(rows)
    ensures UniqueIds(StartSpec(rows, quizzes, store, userId, rawQuizId, newId, now).1)
  {
  }

  /** A started attempt comes with the same questions, in the same order, as the questions endpoint gives. */
  lemma StartQuestionsAgree(rows: seq<Attempt>, quizzes: map<string, QuizDoc>, store: seq<Question>,
                            userId: Uuid, rawQuizId: string, newId: Uuid, now: Instant)
    requires StartSpec(rows, quizzes, store, userId, rawQuizId, newId, now).0.Success?
    requires GetQuizQuestions(quizzes, store, rawQuizId).Success?
    ensures StartSpec(rows, quizzes, store, userId, rawQuizId, newId, now).0.value.questions
      == GetQuizQuestions(quizzes, store, rawQuizId).value
  {
  }

  // ---------------------------------------------------------------------
  // Submitting an attempt
  // ---------------------------------------------------------------------

  /** The fields a submission never touches. */
  predicate SameIdentity(a: Attempt, b: Attempt) {
    a.id == b.id && a.userId == b.userId && a.quizId == b.quizId &&
    a.startedAt == b.startedAt && a.deletedAt == b.deletedAt
  }

  /** A refused submission changes nothing. */
  lemma SubmitFailureKeepsRows(rows: seq<Attempt>, quizzes: map<string, QuizDoc>, store: seq<Question>,
                               userId: Uuid, rawQuizId: string, rawAttemptId: string,
                               answers: map<string, string>, parseUuid: string -> Option<Uuid>,
                               now: Instant, resultId: string)
    requires SubmitSpec(rows, quizzes, store, userId, rawQuizId, rawAttemptId, answers, parseUuid, now, resultId).0.Failure?
    ensures SubmitSpec(rows, quizzes, store, userId, rawQuizId, rawAttemptId, answers, parseUuid, now, resultId).1 == rows
  {
  }

  /** Only an attempt that is still in progress can be submitted. */
  lemma SubmitNeedsInProgress(rows: seq<Attempt>, quizzes: map<string, QuizDoc>, store: seq<Question>,
                              userId: Uuid, rawQuizId: string, rawAttemptId: string,
                              answers: map<string, string>, parseUuid: string -> Option<Uuid>,
                              now: Instant, resultId: string, i: nat)
    requires parseUuid(rawAttemptId).Some?
    requires FindLive(rows, parseUuid(rawAttemptId).value, userId, NormalizeQuizId(rawQuizId)) == Some(i)
    requires rows[i].status != InProgress
    ensures SubmitSpec(rows, quizzes, store, userId, rawQuizId, rawAttemptId, answers, parseUuid, now, resultId)
      == (Failure(AlreadyFinished(rows[i].status)), rows)
  {
  }

  /**
   * A successful submission completes the caller's own live, in-progress
   * attempt with the given id and no other row, keeping its identity, and
   * records the completion time, the whole seconds since the start and the
   * result document's id.
   */
  lemma SubmitCompletes(rows: seq<Attempt>, quizzes: map<string, QuizDoc>, store: seq<Question>,
                        userId: Uuid, rawQuizId: string, rawAttemptId: string,
                        answers: map<string, string>, parseUuid: string -> Option<Uuid>,
                        now: Instant, resultId: string)
    requires SubmitSpec(rows, quizzes, store, userId, rawQuizId, rawAttemptId, answers, parseUuid, now, resultId).0.Success?
    ensures var (r, after) := SubmitSpec(rows, quizzes, store, userId, rawQuizId, rawAttemptId, answers, parseUuid, now, resultId);
            var quizId := NormalizeQuizId(rawQuizId);
            && parseUuid(rawAttemptId).Some? && quizId in quizzes
            && var i := FindLive(rows, parseUuid(rawAttemptId).value, userId, quizId);
            && i.Some?
            && rows[i.value].id == parseUuid(rawAttemptId).value
            && rows[i.value].userId == userId && rows[i.value].quizId == quizId && rows[i.value].deletedAt.None?
            && rows[i.value].status == InProgress
            && |after| == |rows| && after[i.value] == r.value
            && (forall j :: 0 <= j < |rows| && j != i.value ==> after[j] == rows[j])
            && SameIdentity(r.value, rows[i.value])
            && r.value.status == Completed
            && r.value.completedAt == Some(now)
            && r.value.timeSpentSeconds == Some(ElapsedSeconds(rows[i.value].startedAt, now))
            && r.value.resultContentId == Some(resultId)
  {
  }

  /**
   * What a successful submission records: the overall score of the quiz's
   * questions, the level (the last level_config key the score reaches, as
   * written, or without a level_config the lower-cased tier name), the
   * pass verdict against the quiz's passing score (50 when it has none),
   * every category's score in catalogue order, and the strengths and
   * weaknesses.
   */
  lemma SubmitRecordsScores(rows: seq<Attempt>, quizzes: map<string, QuizDoc>, store: seq<Question>,
                            userId: Uuid, rawQuizId: string, rawAttemptId: string,
                            answers: map<string, string>, parseUuid: string -> Option<Uuid>,
                            now: Instant, resultId: string)
    requires SubmitSpec(rows, quizzes, store, userId, rawQuizId, rawAttemptId, answers, parseUuid, now, resultId).0.Success?
    ensures var a := SubmitSpec(rows, quizzes, store, userId, rawQuizId, rawAttemptId, answers, parseUuid, now, resultId).0.value;
            var quizId := NormalizeQuizId(rawQuizId);
            && quizId in quizzes
            && var scores := Score(Fetch(store, quizzes[quizId].questionIds), answers);
            && scores.Success?
            && a.score == Some(scores.value.overall)
            && a.level == (if quizzes[quizId].levelConfig != []
                           then LastMatch(quizzes[quizId].levelConfig, scores.value.overall)
                           else Some(Lower(scores.value.level.level)))
            && a.passed == Some(scores.value.overall >= PassingScore(quizzes[quizId]))
            && (quizzes[quizId].passingScore.None? ==> (a.passed.value <==> scores.value.overall >= 50))
            && a.categoryScores.Some?
            && |a.categoryScores.value| == |CATEGORIES|
            && (forall k :: 0 <= k < |CATEGORIES| ==>
                  && a.categoryScores.value[k].0 == CATEGORIES[k].key
                  && a.categoryScores.value[k].1 == scores.value.categories[k].score)
            && a.strengths == Some(scores.value.strengths)
            && a.weaknesses == Some(scores.value.weaknesses)
  {
    var quizId := NormalizeQuizId(rawQuizId);
    var doc := quizzes[quizId];
    var qs := Fetch(store, doc.questionIds);
    var s := Score(qs, answers).value;
    forall k | 0 <= k < |CATEGORIES|
      ensures s.categories[k].key == CATEGORIES[k].key
    {
      ScoreCategory(qs, answers, k);
    }
  }

  /**
   * With the level_config the migration script writes, every successful
   * submission scoring 0 or more records the level "junior", whatever the
   * score: the lookup as written keeps the last reached key, and the
   * bottom tier's minimum is 0.
   */
  lemma SubmitOnMigratedConfigRecordsJunior(rows: seq<Attempt>, quizzes: map<string, QuizDoc>, store: seq<Question>,
                                            userId: Uuid, rawQuizId: string, rawAttemptId: string,
                                            answers: map<string, string>, parseUuid: string -> Option<Uuid>,
                                            now: Instant, resultId: string)
    requires NormalizeQuizId(rawQuizId) in quizzes
    requires quizzes[NormalizeQuizId(rawQuizId)].levelConfig == Migrate.LevelConfigOf(LEVELS)
    requires SubmitSpec(rows, quizzes, store, userId, rawQuizId, rawAttemptId, answers, parseUuid, now, resultId).0.Success?
    ensures var a := SubmitSpec(rows, quizzes, store, userId, rawQuizId, rawAttemptId, answers, parseUuid, now, resultId).0.value;
            a.score.Some? && (a.score.value >= 0 ==> a.level == Some("junior"))
  {
    var quizId := NormalizeQuizId(rawQuizId);
    SubmitRecordsScores(rows, quizzes, store, userId, rawQuizId, rawAttemptId, answers, parseUuid, now, resultId);
    var overall := Score(Fetch(store, quizzes[quizId].questionIds), answers).value.overall;
    if overall >= 0 {
      Migrate.MigratedLookupAlwaysJunior(overall);
    }
  }

  /** With non-negative option weights the recorded score and every category score lie in 0..100. */
  lemma SubmitScoresInRange(rows: seq<Attempt>, quizzes: map<string, QuizDoc>, store: seq<Question>,
                            userId: Uuid, rawQuizId: string, rawAttemptId: string,
                            answers: map<string, string>, parseUuid: string -> Option<Uuid>,
                            now: Instant, resultId: string)
    requires SubmitSpec(rows, quizzes, store, userId, rawQuizId, rawAttemptId, answers, parseUuid, now, resultId).0.Success?
    requires NonNegativeWeights(store)
    ensures var a := SubmitSpec(rows, quizzes, store, userId, rawQuizId, rawAttemptId, answers, parseUuid, now, resultId).0.value;
            && a.score.Some? && 0 <= a.score.value <= 100
            && a.categoryScores.Some?
            && forall k :: 0 <= k < |a.categoryScores.value| ==> 0 <= a.categoryScores.value[k].1 <= 100
  {
    var doc := quizzes[NormalizeQuizId(rawQuizId)];
    var qs := Fetch(store, doc.questionIds);
    FetchKeepsWeights(store, doc.questionIds);
    ScoresInRange(qs, answers);
    var s := Score(qs, answers).value;
    forall k | 0 <= k < |s.categories|
      ensures 0 <= s.categories[k].score <= 100
    {
      assert s.categories[k] in s.categories;
    }
  }

  lemma {:induction false} FetchKeepsWeights(store: seq<Question>, ids: seq<string>)
    requires NonNegativeWeights(store)
    ensures NonNegativeWeights(Fetch(store, ids))
  {
    if store != [] {
      assert NonNegativeWeights(store[1..]) by {
        forall i, j | 0 <= i < |store[1..]| && 0 <= j < |store[1..][i].weights|
          ensures store[1..][i].weights[j].1 >= 0
        {
          assert store[1..][i] == store[i + 1];
        }
      }
      FetchKeepsWeights(store[1..], ids);
      var head: seq<Question> := if store[0].id in ids then [store[0]] else [];
      var fetched := head + Fetch(store[1..], ids);
      forall i, j | 0 <= i < |fetched| && 0 <= j < |fetched[i].weights|
        ensures fetched[i].weights[j].1 >= 0
      {
        if i < |head| {
          assert fetched[i] == store[0];
        } else {
          assert fetched[i] == Fetch(store[1..], ids)[i - |head|];
        }
      }
    }
  }

  lemma FindLiveAfterCompletion(rows: seq<Attempt>, i: nat, a: Attempt, id: Uuid, userId: Uuid, quizId: string)
    requires FindLive(rows, id, userId, quizId) == Some(i)
    requires SameIdentity(a, rows[i])
    ensures FindLive(rows[i := a], id, userId, quizId) == Some(i)
  {
    var after := rows[i := a];
    assert after[i].id == id && Live(after[i], userId, quizId);
  }

  /**
   * An attempt completes at most once: submitting it again, with any
   * answers, at any time, is refused as already completed and changes
   * nothing.
   */
  lemma SubmitAtMostOnce(rows: seq<Attempt>, quizzes: map<string, QuizDoc>, store: seq<Question>,
                         userId: Uuid, rawQuizId: string, rawAttemptId: string,
                         answers: map<string, string>, parseUuid: string -> Option<Uuid>,
                         now: Instant, resultId: string,
                         answers2: map<string, string>, now2: Instant, resultId2: string)
    requires SubmitSpec(rows, quizzes, store, userId, rawQuizId, rawAttemptId, answers, parseUuid, now, resultId).0.Success?
    ensures var after := SubmitSpec(rows, quizzes, store, userId, rawQuizId, rawAttemptId, answers, parseUuid, now, resultId).1;
            SubmitSpec(after, quizzes, store, userId, rawQuizId, rawAttemptId, answers2, parseUuid, now2, resultId2)
              == (Failure(AlreadyFinished(Completed)), after)
  {
    var (r, after) := SubmitSpec(rows, quizzes, store, userId, rawQuizId, rawAttemptId, answers, parseUuid, now, resultId);
    var quizId := NormalizeQuizId(rawQuizId);
    var id := parseUuid(rawAttemptId).value;
    var i := FindLive(rows, id, userId, quizId).value;
    assert after == rows[i := r.value];
    FindLiveAfterCompletion(rows, i, r.value, id, userId, quizId);
  }

  /** A submission keeps attempt ids distinct. */
  lemma SubmitKeepsIdsUnique(rows: seq<Attempt>, quizzes: map<string, QuizDoc>, store: seq<Question>,
                             userId: Uuid, rawQuizId: string, rawAttemptId: string,
                             answers: map<string, string>, parseUuid: string -> Option<Uuid>,
                             now: Instant, resultId: string)
    requires UniqueIds(rows)
    ensures UniqueIds(SubmitSpec(rows, quizzes, store, userId, rawQuizId, rawAttemptId, answers, parseUuid, now, resultId).1)
  {
  }
}
