/**
 * The results endpoints' own logic: the answer sheets the quick test
 * fabricates, the switch that enables the quick test, the public view of
 * a stored result, and the text saved when recommendations cannot be
 * generated.
 *
 * `random.random()` and `random.choice` are not modelled; each question's
 * draws are a parameter.
 */
module Results {
  import opened Wrappers
  import opened Text
  import opened Scoring

  // ---------------------------------------------------------------------
  // generate_quick_test_answers
  // ---------------------------------------------------------------------

  /** The options the quick test treats as right, and as wrong. */
  const RIGHT_OPTIONS: seq<string> := ["a", "b", "c"]
  const WRONG_OPTIONS: seq<string> := ["d", "e", "f", "g", "h", "i"]
  const ALL_OPTIONS: seq<string> := RIGHT_OPTIONS + WRONG_OPTIONS

  /** For one question: the value `random.random()` returns (in [0, 1)) and the index `random.choice` picks. */
  datatype Draw = Draw(roll: real, pick: nat)

  /** The chance of a right option for the three named profiles; None for "random" and every other type. */
  function RightChance(testType: string): Option<real> {
    if testType == "expert" then Some(0.8)
    else if testType == "intermediate" then Some(0.6)
    else if testType == "beginner" then Some(0.3)
    else None
  }

  /** `random.choice(options)`, with the index drawn as `pick` modulo the list length. */
  function Pick(options: seq<string>, pick: nat): (o: string)
    requires |options| > 0
    ensures o in options
  {
    options[pick % |options|]
  }

  /** The answer for one question. */
  function QuickAnswer(testType: string, d: Draw): string {
    match RightChance(testType)
    case Some(chance) => if d.roll < chance then Pick(RIGHT_OPTIONS, d.pick) else Pick(WRONG_OPTIONS, d.pick)
    case None => Pick(ALL_OPTIONS, d.pick)
  }

  /**
   * `answers[key] = value` for each pair in order, starting from `{}`: a
   * repeated key keeps its last value.
   */
  function Sheet(keys: seq<string>, values: seq<string>): map<string, string>
    requires |keys| == |values|
  {
    if keys == [] then map[]
    else Sheet(keys[..|keys| - 1], values[..|values| - 1])[keys[|keys| - 1] := values[|values| - 1]]
  }

  /** The keys are the keys assigned, each value is one of the values assigned, and there are no more entries than assignments. */
  lemma {:induction false} SheetShape(keys: seq<string>, values: seq<string>)
    requires |keys| == |values|
    ensures var m := Sheet(keys, values);
      && (forall k :: k in m <==> k in keys)
      && (forall k :: k in m ==> m[k] in values)
      && |m| <= |keys|
  {
    if keys != [] {
      var n := |keys| - 1;
      SheetShape(keys[..n], values[..n]);
      assert keys == keys[..n] + [keys[n]];
      assert forall v :: v in values[..n] ==> v in values;
    }
  }

  /** Each key holds the value of its last assignment. */
  lemma {:induction false} SheetLastWins(keys: seq<string>, values: seq<string>, i: nat)
    requires |keys| == |values| && i < |keys|
    requires forall j :: i < j < |keys| ==> keys[j] != keys[i]
    ensures keys[i] in Sheet(keys, values) && Sheet(keys, values)[keys[i]] == values[i]
  {
    var n := |keys| - 1;
    if i < n {
      SheetLastWins(keys[..n], values[..n], i);
    }
  }

  /** The question ids, in order. */
  function QuestionIds(questions: seq<Question>): (ids: seq<string>)
    ensures |ids| == |questions|
  {
    seq(|questions|, i requires 0 <= i < |questions| => questions[i].id)
  }

  /** The answer drawn for each question, in order. */
  function DrawnAnswers(testType: string, draws: seq<Draw>): (answers: seq<string>)
    ensures |answers| == |draws|
  {
    seq(|draws|, i requires 0 <= i < |draws| => QuickAnswer(testType, draws[i]))
  }

  /** The answer sheet for the first `n` questions. */
  function QuickTestAnswers(questions: seq<Question>, testType: string, draws: seq<Draw>, n: nat): map<string, string>
    requires n <= |questions| == |draws|
  {
    Sheet(QuestionIds(questions)[..n], DrawnAnswers(testType, draws)[..n])
  }

  /** generate_quick_test_answers. */
  method GenerateQuickTestAnswers(questions: seq<Question>, testType: string, draws: seq<Draw>)
    returns (answers: map<string, string>)
    requires |draws| == |questions|
    ensures answers == QuickTestAnswers(questions, testType, draws, |questions|)
  {
    ghost var ids, drawn := QuestionIds(questions), DrawnAnswers(testType, draws);
    answers := map[];
    var n := 0;
    while n < |questions|
      invariant n <= |questions|
      invariant answers == Sheet(ids[..n], drawn[..n])
    {
      assert ids[..n + 1][..n] == ids[..n] && drawn[..n + 1][..n] == drawn[..n];
      answers := answers[questions[n].id := QuickAnswer(testType, draws[n])];
      n := n + 1;
    }
    assert ids[..n] == ids && drawn[..n] == drawn;
  }

  /**
   * Every answer is one of "a".."i"; for the three named profiles it is a
   * right option exactly when the roll falls below the profile's chance.
   */
  lemma QuickAnswerOptions(testType: string, d: Draw)
    ensures QuickAnswer(testType, d) in ALL_OPTIONS
    ensures RightChance(testType).Some? ==>
      (QuickAnswer(testType, d) in RIGHT_OPTIONS <==> d.roll < RightChance(testType).value)
  {
    var a := QuickAnswer(testType, d);
    if RightChance(testType).Some? && d.roll >= RightChance(testType).value {
      assert a in WRONG_OPTIONS;
      assert a[0] in "defghi";
    }
  }

  /** A generated sheet has a key for every question id and no other, and no more entries than questions. */
  lemma QuickTestKeys(questions: seq<Question>, testType: string, draws: seq<Draw>)
    requires |questions| == |draws|
    ensures var answers := QuickTestAnswers(questions, testType, draws, |questions|);
      && (forall k :: k in answers <==> exists i :: 0 <= i < |questions| && questions[i].id == k)
      && |answers| <= |questions|
  {
    var ids, drawn := QuestionIds(questions), DrawnAnswers(testType, draws);
    assert ids[..|questions|] == ids && drawn[..|draws|] == drawn;
    SheetShape(ids, drawn);
    forall k | k in ids
      ensures exists i :: 0 <= i < |questions| && questions[i].id == k
    {
      var i :| 0 <= i < |ids| && ids[i] == k;
      assert questions[i].id == k;
    }
    forall i | 0 <= i < |questions|
      ensures questions[i].id in ids
    {
      assert ids[i] == questions[i].id;
    }
  }

  /** Each key holds the answer drawn for the last question with that id. */
  lemma QuickTestLastAnswer(questions: seq<Question>, testType: string, draws: seq<Draw>, i: nat)
    requires |questions| == |draws| && i < |questions|
    requires forall j :: i < j < |questions| ==> questions[j].id != questions[i].id
    ensures var answers := QuickTestAnswers(questions, testType, draws, |questions|);
      questions[i].id in answers && answers[questions[i].id] == QuickAnswer(testType, draws[i])
  {
    var ids, drawn := QuestionIds(questions), DrawnAnswers(testType, draws);
    assert ids[..|questions|] == ids && drawn[..|draws|] == drawn;
    SheetLastWins(ids, drawn, i);
  }

  /** Every answer on a generated sheet is one of "a".."i". */
  lemma QuickTestOptions(questions: seq<Question>, testType: string, draws: seq<Draw>)
    requires |questions| == |draws|
    ensures var answers := QuickTestAnswers(questions, testType, draws, |questions|);
      forall k :: k in answers ==> answers[k] in ALL_OPTIONS
  {
    var ids, drawn := QuestionIds(questions), DrawnAnswers(testType, draws);
    assert ids[..|questions|] == ids && drawn[..|draws|] == drawn;
    SheetShape(ids, drawn);
    forall i | 0 <= i < |draws|
      ensures drawn[i] in ALL_OPTIONS
    {
      QuickAnswerOptions(testType, draws[i]);
    }
  }

  // ---------------------------------------------------------------------
  // The quick-test switch
  // ---------------------------------------------------------------------

  /** `os.environ.get("ENABLE_QUICK_TEST", "false").lower() in ("true", "1", "yes")`. */
  predicate QuickTestEnabled(env: Option<string>) {
    var v := Lower(env.GetOr("false"));
    v == "true" || v == "1" || v == "yes"
  }

  /** What the two quick-test endpoints answer before doing any work: 404 while disabled. */
  function QuickTestGate(env: Option<string>): (r: Option<int>)
    ensures r.None? <==> QuickTestEnabled(env)
  {
    if QuickTestEnabled(env) then None else Some(404)
  }

  lemma LowerIdempotent(s: string)
    ensures Lower(Lower(s)) == Lower(s)
  {
  }

  /** The switch is off when the variable is unset, and ignores letter case. */
  lemma QuickTestSwitch(env: Option<string>)
    ensures !QuickTestEnabled(None)
    ensures env.Some? ==> (QuickTestEnabled(env) <==> QuickTestEnabled(Some(Lower(env.value))))
  {
    assert |Lower("false")| == 5;
    if env.Some? {
      LowerIdempotent(env.value);
    }
  }

  // ---------------------------------------------------------------------
  // get_result_by_id
  // ---------------------------------------------------------------------

  /** A field of a stored document: missing, an explicit null, or a value. */
  datatype Field<T> = Absent | Null | Present(value: T)

  /** `doc.get(key, default)`: the default for a missing key, None for an explicit null. */
  function Lookup<T>(f: Field<T>, default: T): Option<T> {
    match f
    case Absent => Some(default)
    case Null => None
    case Present(v) => Some(v)
  }

  /**
   * A stored result document. A scalar field read with a plain `.get` is
   * None whether it is missing or null; the fields read with a default keep
   * the difference. The user is the submitted user dict (name, email,
   * experience, ...).
   */
  datatype StoredResult = StoredResult(
    user: Field<map<string, string>>,
    overallScore: Option<int>,
    level: Option<LevelView>,
    categories: Option<seq<CategoryScore>>,
    strengths: Field<seq<NamedScore>>,
    weaknesses: Field<seq<NamedScore>>,
    recommendations: Option<string>,
    details: Field<seq<QuestionDetail>>,
    createdAt: Option<int>)

  /** The response body; a field that comes back as null is None. */
  datatype PublicResult = PublicResult(
    name: string, experience: string,
    overallScore: Option<int>,
    level: Option<LevelView>,
    categories: Option<seq<CategoryScore>>,
    strengths: Option<seq<NamedScore>>,
    weaknesses: Option<seq<NamedScore>>,
    recommendations: Option<string>,
    details: Option<seq<QuestionDetail>>,
    createdAt: Option<int>)

  function UserField(user: map<string, string>, key: string): string {
    if key in user then user[key] else ""
  }

  /**
   * The body get_result_by_id returns for a stored document, or None when
   * building it raises: a null user has no `.get`, an AttributeError.
   */
  function PublicView(r: StoredResult): (v: Option<PublicResult>)
    ensures v.None? <==> r.user.Null?
    ensures v.Some? ==> r.strengths.Absent? ==> v.value.strengths == Some([])
    ensures v.Some? ==> r.weaknesses.Absent? ==> v.value.weaknesses == Some([])
    ensures v.Some? ==> r.details.Absent? ==> v.value.details == Some([])
  {
    if r.user.Null? then None
    else
      var user := if r.user.Present? then r.user.value else map[];
      Some(PublicResult(UserField(user, "name"), UserField(user, "experience"),
                        r.overallScore, r.level, r.categories,
                        Lookup(r.strengths, []), Lookup(r.weaknesses, []),
                        r.recommendations, Lookup(r.details, []), r.createdAt))
  }

  /** The view exposes only the user's name and experience: changing any other user field changes nothing. */
  lemma ViewHidesOtherUserFields(r: StoredResult, u: map<string, string>, key: string, value: string)
    requires key != "name" && key != "experience"
    ensures PublicView(r.(user := Present(u[key := value]))) == PublicView(r.(user := Present(u)))
  {
  }

  /**
   * Everything but the user's other fields survives the projection, and a
   * list field stored as null comes back as null, not as an empty list.
   */
  lemma ViewKeepsResult(r: StoredResult)
    requires !r.user.Null?
    ensures var v := PublicView(r).value;
      && (r.strengths.Present? ==> v.strengths == Some(r.strengths.value))
      && (r.weaknesses.Present? ==> v.weaknesses == Some(r.weaknesses.value))
      && (r.details.Present? ==> v.details == Some(r.details.value))
      && (r.strengths.Null? ==> v.strengths.None?)
      && (r.weaknesses.Null? ==> v.weaknesses.None?)
      && (r.details.Null? ==> v.details.None?)
      && v.overallScore == r.overallScore && v.level == r.level && v.categories == r.categories
      && v.recommendations == r.recommendations && v.createdAt == r.createdAt
      && (r.user.Present? && "name" in r.user.value ==> v.name == r.user.value["name"])
      && (r.user.Absent? ==> v.name == "" && v.experience == "")
  {
  }

  /** Errors of get_result_by_id; an unhandled exception is a server error. */
  datatype LookupError = InvalidId | NotFound | ServerError

  function LookupStatus(e: LookupError): int {
    match e
    case InvalidId => 400
    case NotFound => 404
    case ServerError => 500
  }

  /** The answer for a found document: its public view, or 500 when building the view raises. */
  function ViewResult(doc: StoredResult): Result<PublicResult, LookupError> {
    match PublicView(doc)
    case None => Failure(ServerError)
    case Some(v) => Success(v)
  }

  /**
   * get_result_by_id over the results collection, as (ObjectId, document)
   * pairs in natural order; `parseId` stands for the ObjectId constructor.
   */
  function GetResultById<Oid(==)>(parseId: string -> Option<Oid>, results: seq<(Oid, StoredResult)>, id: string)
    : (r: Result<PublicResult, LookupError>)
    ensures parseId(id).None? ==> r == Failure(InvalidId)
    ensures r.Success? ==> exists i :: 0 <= i < |results| && results[i].0 == parseId(id).value
                                      && PublicView(results[i].1) == Some(r.value)
    ensures r == Failure(NotFound) <==>
      parseId(id).Some? && forall i :: 0 <= i < |results| ==> results[i].0 != parseId(id).value
    ensures r == Failure(ServerError) ==>
      exists i :: 0 <= i < |results| && results[i].0 == parseId(id).value && results[i].1.user.Null?
  {
    if parseId(id).None? then Failure(InvalidId)
    else FindResult(results, parseId(id).value)
  }

  /** `find_one`: the answer for the first document with the id, or 404 when there is none. */
  function FindResult<Oid(==)>(results: seq<(Oid, StoredResult)>, oid: Oid): (r: Result<PublicResult, LookupError>)
    ensures forall i :: 0 <= i < |results| && results[i].0 == oid && (forall j :: 0 <= j < i ==> results[j].0 != oid)
                        ==> r == ViewResult(results[i].1)
    ensures r == Failure(NotFound) <==> forall i :: 0 <= i < |results| ==> results[i].0 != oid
    ensures r.Success? ==> exists i :: 0 <= i < |results| && results[i].0 == oid && PublicView(results[i].1) == Some(r.value)
    ensures r == Failure(ServerError) ==>
      exists i :: 0 <= i < |results| && results[i].0 == oid && results[i].1.user.Null?
    ensures r != Failure(InvalidId)
  {
    if results == [] then Failure(NotFound)
    else if results[0].0 == oid then ViewResult(results[0].1)
    else
      var rest := FindResult(results[1..], oid);
      assert forall i :: 1 <= i < |results| ==> results[i] == results[1..][i - 1];
      rest
  }

  // ---------------------------------------------------------------------
  // generate_and_save_recommendations
  // ---------------------------------------------------------------------

  const FALLBACK_PREFIX: string := "Не удалось сгенерировать рекомендации: "
  const FALLBACK_SUFFIX: string := ". Попробуйте позже."

  /**
   * The text saved for a result: the generated recommendations, or, when
   * generation raised, a message holding the exception's text.
   */
  function SavedRecommendations(outcome: Result<string, string>): string {
    match outcome
    case Success(text) => text
    case Failure(message) => FALLBACK_PREFIX + message + FALLBACK_SUFFIX
  }

  /** The document after the background task: recommendations are set whatever happened. */
  function SaveRecommendations(r: StoredResult, outcome: Result<string, string>): (after: StoredResult)
    ensures after.recommendations.Some?
    ensures after.(recommendations := r.recommendations) == r
  {
    r.(recommendations := Some(SavedRecommendations(outcome)))
  }

  /** The fallback text starts and ends with the fixed phrases and carries the exception's message between them. */
  lemma FallbackCarriesMessage(message: string)
    ensures var text := SavedRecommendations(Failure(message));
      && StartsWith(text, FALLBACK_PREFIX)
      && |text| == |FALLBACK_PREFIX| + |message| + |FALLBACK_SUFFIX|
      && text[|FALLBACK_PREFIX|..|FALLBACK_PREFIX| + |message|] == message
      && text[|FALLBACK_PREFIX| + |message|..] == FALLBACK_SUFFIX
  {
    var text := SavedRecommendations(Failure(message));
    assert text[..|FALLBACK_PREFIX|] == FALLBACK_PREFIX;
  }

  /** Two failures save the same text only when their messages agree. */
  lemma FallbackInjective(m1: string, m2: string)
    requires SavedRecommendations(Failure(m1)) == SavedRecommendations(Failure(m2))
    ensures m1 == m2
  {
    FallbackCarriesMessage(m1);
    FallbackCarriesMessage(m2);
  }
}
