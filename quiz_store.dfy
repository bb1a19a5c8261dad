/** Saving quiz results and attaching an AI analysis to them. The answers are
    normalised into a history record (defaults for every missing field), the
    record is appended to the user's quiz history, and a summary of it is
    merged into the user document as `latestQuiz`; an analysis later updates
    the history record and, when it is still the latest one, the summary. The
    document store is two maps: user documents by user id, and per user the
    history records by record id. */
module QuizStore {
  import opened Wrappers
  import opened JsNum
  import AiJson

  /** A value stored in the answers object: answers are strings or numbers, the
      `aiAnalyzed` flag a boolean. */
  datatype Value = Str(s: string) | Number(n: real) | Bool(b: bool)

  type Answers = map<string, Value>

  /** JavaScript truthiness of a stored value. */
  predicate IsTruthy(v: Value) {
    match v
    case Str(s) => s != ""
    case Number(n) => n != 0.0
    case Bool(b) => b
  }

  /** `answers[key] || fallback`. */
  function OrDefault(answers: Answers, key: string, fallback: Value): (v: Value)
    requires IsTruthy(fallback)
    ensures IsTruthy(v)
    ensures v == fallback || (key in answers && v == answers[key])
    ensures key in answers && IsTruthy(answers[key]) ==> v == answers[key]
  {
    if key in answers && IsTruthy(answers[key]) then answers[key] else fallback
  }

  /** The stored risk level: the answer's own when truthy, `'Low'` otherwise. */
  function RiskLevel(answers: Answers): (level: Value)
    ensures IsTruthy(level)
    ensures "riskLevel" in answers && IsTruthy(answers["riskLevel"]) ==> level == answers["riskLevel"]
    ensures !("riskLevel" in answers && IsTruthy(answers["riskLevel"])) ==> level == Str("Low")
  {
    OrDefault(answers, "riskLevel", Str("Low"))
  }

  /** The stored risk score: a number is kept, a string is read with
      `parseInt(…, 10)`, anything else (absent, boolean) gives 0. */
  function RiskScore(answers: Answers): (score: Num)
    ensures "riskScore" !in answers ==> score == Finite(0.0)
    ensures "riskScore" in answers && answers["riskScore"].Number? ==> score == Finite(answers["riskScore"].n)
    ensures "riskScore" in answers && answers["riskScore"].Str? ==> score == ParseInt(answers["riskScore"].s)
    ensures "riskScore" in answers && answers["riskScore"].Bool? ==> score == Finite(0.0)
  {
    if "riskScore" !in answers then Finite(0.0)
    else match answers["riskScore"]
      case Number(n) => Finite(n)
      case Str(s) => ParseInt(s)
      case Bool(_) => Finite(0.0)
  }

  /** A score saved as the decimal text of an integer is read back as that
      integer. */
  lemma RiskScoreFromText(answers: Answers, i: int)
    requires "riskScore" in answers && answers["riskScore"] == Str(IntToString(i))
    ensures RiskScore(answers) == Finite(i as real)
  {
    ParseIntRoundTrip(i);
  }

  /** `parseInt(String(x), 10)` for a number written in plain decimal notation:
      the integer part, truncated toward zero. */
  function Truncate(x: real): (i: int)
    ensures 0.0 <= x ==> i as real <= x < i as real + 1.0
    ensures x < 0.0 ==> i as real - 1.0 < x <= i as real
  {
    if x >= 0.0 then x.Floor else -((-x).Floor)
  }

  /** `answers[key] ? parseFloat(answers[key].toString()) : 0`. */
  function FloatField(answers: Answers, key: string, parseFloat: string -> Num): (n: Num)
    ensures !(key in answers && IsTruthy(answers[key])) ==> n == Finite(0.0)
    ensures key in answers && answers[key].Number? ==> n == Finite(answers[key].n)
    ensures key in answers && answers[key].Str? && answers[key].s != "" ==> n == parseFloat(answers[key].s)
  {
    if key in answers && IsTruthy(answers[key]) then
      match answers[key]
      case Str(s) => parseFloat(s)
      case Number(x) => Finite(x)
      case Bool(_) => parseFloat("true")
    else Finite(0.0)
  }

  /** `answers[key] ? parseInt(answers[key].toString(), 10) : 0`. */
  function IntField(answers: Answers, key: string): (n: Num)
    ensures !(key in answers && IsTruthy(answers[key])) ==> n == Finite(0.0)
    ensures key in answers && answers[key].Number? ==> n == Finite(Truncate(answers[key].n) as real)
    ensures key in answers && answers[key].Str? && answers[key].s != "" ==> n == ParseInt(answers[key].s)
  {
    if key in answers && IsTruthy(answers[key]) then
      match answers[key]
      case Str(s) => ParseInt(s)
      case Number(x) => Finite(Truncate(x) as real)
      case Bool(_) => ParseInt("true")
    else Finite(0.0)
  }

  /** A whole-number field saved as its decimal text is read back unchanged. */
  lemma IntFieldFromText(answers: Answers, key: string, i: int)
    requires key in answers && answers[key] == Str(IntToString(i))
    ensures IntField(answers, key) == Finite(i as real)
  {
    ParseIntRoundTrip(i);
  }

  /** `aiAnalyzed` is set only by the boolean `true` itself, never by a merely
      truthy value. */
  predicate AiAnalyzed(answers: Answers) {
    "aiAnalyzed" in answers && answers["aiAnalyzed"] == Bool(true)
  }

  datatype HealthMetrics = HealthMetrics(
    bmi: Num, bmiCategory: Value, idealWeightMin: Num, idealWeightMax: Num, bmr: Num, waterNeeded: Num)

  /** A quiz-history record. `completedAt` is the time of the save. */
  datatype QuizResult = QuizResult(
    answers: Answers, healthMetrics: HealthMetrics, riskLevel: Value, riskScore: Num,
    aiAnalysis: Option<AiJson.Analysis>, aiAnalyzed: bool, completedAt: int)

  /** The summary of the latest record kept on the user document. */
  datatype LatestQuiz = LatestQuiz(
    id: string, riskLevel: Value, riskScore: Num, bmi: Num, bmiCategory: Value,
    bmr: Num, waterNeeded: Num, aiAnalyzed: bool, completedAt: int)

  /** A user document: the latest-quiz summary, the latest metrics, and every
      other field (profile data), which the quiz code never writes. */
  datatype UserDoc = UserDoc(latestQuiz: Option<LatestQuiz>, healthMetrics: Option<HealthMetrics>, otherFields: map<string, Value>)

  /** The metrics of a record, each with its default. */
  function Metrics(answers: Answers, parseFloat: string -> Num): (m: HealthMetrics)
    ensures IsTruthy(m.bmiCategory)
    ensures m.bmi == FloatField(answers, "bmi", parseFloat)
      && m.waterNeeded == FloatField(answers, "waterNeeded", parseFloat)
    ensures m.bmiCategory == OrDefault(answers, "bmiCategory", Str("Unknown"))
    ensures m.idealWeightMin == IntField(answers, "idealWeightMin")
      && m.idealWeightMax == IntField(answers, "idealWeightMax") && m.bmr == IntField(answers, "bmr")
    ensures answers == map[] ==>
      m == HealthMetrics(Finite(0.0), Str("Unknown"), Finite(0.0), Finite(0.0), Finite(0.0), Finite(0.0))
  {
    HealthMetrics(
      FloatField(answers, "bmi", parseFloat),
      OrDefault(answers, "bmiCategory", Str("Unknown")),
      IntField(answers, "idealWeightMin"),
      IntField(answers, "idealWeightMax"),
      IntField(answers, "bmr"),
      FloatField(answers, "waterNeeded", parseFloat))
  }

  /** The record `saveQuizResults` writes for `answers` at time `now`. */
  function Record(answers: Answers, parseFloat: string -> Num, now: int): (q: QuizResult)
    ensures q.answers == answers && q.completedAt == now && q.aiAnalysis.None?
    ensures q.riskLevel == RiskLevel(answers) && q.riskScore == RiskScore(answers)
    ensures q.healthMetrics == Metrics(answers, parseFloat)
    ensures IsTruthy(q.riskLevel) && IsTruthy(q.healthMetrics.bmiCategory)
    ensures q.aiAnalyzed <==> "aiAnalyzed" in answers && answers["aiAnalyzed"] == Bool(true)
  {
    QuizResult(answers, Metrics(answers, parseFloat), RiskLevel(answers), RiskScore(answers), None, AiAnalyzed(answers), now)
  }

  /** Saving an empty answers object stores every default. */
  lemma EmptyAnswersDefaults(parseFloat: string -> Num, now: int)
    ensures var q := Record(map[], parseFloat, now);
      q.riskLevel == Str("Low") && q.riskScore == Finite(0.0) && !q.aiAnalyzed
      && q.healthMetrics.bmiCategory == Str("Unknown") && q.healthMetrics.bmr == Finite(0.0)
  {
  }

  /** `l` is the summary of record `q`. */
  predicate Summarizes(l: LatestQuiz, q: QuizResult) {
    l.riskLevel == q.riskLevel && l.riskScore == q.riskScore && l.aiAnalyzed == q.aiAnalyzed
    && l.bmi == q.healthMetrics.bmi && l.bmiCategory == q.healthMetrics.bmiCategory
    && l.bmr == q.healthMetrics.bmr && l.waterNeeded == q.healthMetrics.waterNeeded
    && l.completedAt == q.completedAt
  }

  /** The history of user `u`; a user with none has an empty one. */
  function HistoryOf(history: map<string, map<string, QuizResult>>, u: string): map<string, QuizResult> {
    if u in history then history[u] else map[]
  }

  /** The document of user `u`; merging into a missing document creates it. */
  function UserOf(users: map<string, UserDoc>, u: string): UserDoc {
    if u in users then users[u] else UserDoc(None, None, map[])
  }

  /** Every latest-quiz summary names a record of its user's history and agrees
      with it. */
  predicate Consistent(users: map<string, UserDoc>, history: map<string, map<string, QuizResult>>) {
    forall u :: u in users && users[u].latestQuiz.Some? ==>
      u in history && users[u].latestQuiz.value.id in history[u]
      && Summarizes(users[u].latestQuiz.value, history[u][users[u].latestQuiz.value.id])
  }

  /** The user document after the merge of `saveQuizResults`: the summary of the
      new record `q` saved under `id`, and its metrics. */
  function SavedUser(doc: UserDoc, id: string, q: QuizResult): (r: UserDoc)
    ensures r.latestQuiz.Some? && r.latestQuiz.value.id == id && Summarizes(r.latestQuiz.value, q)
    ensures r.healthMetrics == Some(q.healthMetrics)
    ensures r.otherFields == doc.otherFields
  {
    var m := q.healthMetrics;
    doc.(latestQuiz := Some(LatestQuiz(id, q.riskLevel, q.riskScore, m.bmi, m.bmiCategory, m.bmr, m.waterNeeded, q.aiAnalyzed, q.completedAt)),
         healthMetrics := Some(m))
  }

  /** A history record after the merge of `updateQuizWithAIAnalysis`. */
  function AnalysedRecord(q: QuizResult, a: AiJson.Analysis): (r: QuizResult)
    ensures r.aiAnalysis == Some(a) && r.aiAnalyzed
    ensures r.riskLevel == Str(a.riskLevel) && r.riskScore == Finite(a.riskScore)
    ensures r.answers == q.answers && r.healthMetrics == q.healthMetrics && r.completedAt == q.completedAt
  {
    q.(aiAnalysis := Some(a), aiAnalyzed := true, riskLevel := Str(a.riskLevel), riskScore := Finite(a.riskScore))
  }

  /** The user document after `updateQuizWithAIAnalysis` for record `quizId`:
      the summary takes the analysis's risk only when it names that record. */
  function AnalysedUser(doc: UserDoc, quizId: string, a: AiJson.Analysis): (r: UserDoc)
    ensures doc.latestQuiz.None? || doc.latestQuiz.value.id != quizId ==> r == doc
    ensures doc.latestQuiz.Some? && doc.latestQuiz.value.id == quizId ==>
      r.latestQuiz.Some? && r.latestQuiz.value.id == quizId && r.latestQuiz.value.aiAnalyzed
      && r.latestQuiz.value.riskLevel == Str(a.riskLevel) && r.latestQuiz.value.riskScore == Finite(a.riskScore)
      && r.latestQuiz.value.bmi == doc.latestQuiz.value.bmi && r.latestQuiz.value.completedAt == doc.latestQuiz.value.completedAt
    ensures r.otherFields == doc.otherFields && r.healthMetrics == doc.healthMetrics
  {
    if doc.latestQuiz.Some? && doc.latestQuiz.value.id == quizId then
      doc.(latestQuiz := Some(doc.latestQuiz.value.(aiAnalyzed := true, riskLevel := Str(a.riskLevel), riskScore := Finite(a.riskScore))))
    else doc
  }

  /** Saving keeps every summary consistent with the history. */
  lemma SavePreservesConsistency(
    users: map<string, UserDoc>, history: map<string, map<string, QuizResult>>, u: string, id: string, q: QuizResult)
    requires Consistent(users, history)
    ensures Consistent(users[u := SavedUser(UserOf(users, u), id, q)], history[u := HistoryOf(history, u)[id := q]])
  {
    var users' := users[u := SavedUser(UserOf(users, u), id, q)];
    var history' := history[u := HistoryOf(history, u)[id := q]];
    forall v | v in users' && users'[v].latestQuiz.Some?
      ensures v in history' && users'[v].latestQuiz.value.id in history'[v]
      ensures Summarizes(users'[v].latestQuiz.value, history'[v][users'[v].latestQuiz.value.id])
    {
      if v != u {
        assert users'[v] == users[v];
      }
    }
  }

  /** Attaching an analysis keeps every summary consistent with the history:
      the record and its summary take the same new risk. */
  lemma UpdatePreservesConsistency(
    users: map<string, UserDoc>, history: map<string, map<string, QuizResult>>, u: string, quizId: string, a: AiJson.Analysis)
    requires Consistent(users, history)
    requires u in history && quizId in history[u]
    ensures var history' := history[u := history[u][quizId := AnalysedRecord(history[u][quizId], a)]];
      Consistent(if u in users then users[u := AnalysedUser(users[u], quizId, a)] else users, history')
  {
    var history' := history[u := history[u][quizId := AnalysedRecord(history[u][quizId], a)]];
    var users' := if u in users then users[u := AnalysedUser(users[u], quizId, a)] else users;
    forall v | v in users' && users'[v].latestQuiz.Some?
      ensures v in history' && users'[v].latestQuiz.value.id in history'[v]
      ensures Summarizes(users'[v].latestQuiz.value, history'[v][users'[v].latestQuiz.value.id])
    {
      if v != u {
        assert users'[v] == users[v];
      }
    }
  }

  /** An analysis attached right after a save reaches the latest-quiz summary;
      one attached to any other record leaves the summary as the save left it. */
  lemma AnalysisAfterSave(doc: UserDoc, id: string, q: QuizResult, other: string, a: AiJson.Analysis)
    requires other != id
    ensures var saved := SavedUser(doc, id, q);
      AnalysedUser(saved, id, a).latestQuiz.value.riskLevel == Str(a.riskLevel)
      && AnalysedUser(saved, id, a).latestQuiz.value.aiAnalyzed
      && AnalysedUser(saved, other, a) == saved
  {
  }

  /** What `saveQuizResults` returns on success. */
  datatype Saved = Saved(riskLevel: Value, riskScore: Num, quizId: string)

  class Store {
    var users: map<string, UserDoc>
    var history: map<string, map<string, QuizResult>>

    predicate Valid()
      reads this
    {
      Consistent(users, history)
    }

    constructor ()
      ensures Valid() && users == map[] && history == map[]
    {
      users := map[];
      history := map[];
    }

    /** `saveQuizResults`. `newId` is the id the store gives the new history
        record, never one already in use; `now` is the save time. */
    method SaveQuizResults(userId: string, answers: Answers, parseFloat: string -> Num, newId: string, now: int)
      returns (saved: Option<Saved>)
      requires Valid()
      requires newId !in HistoryOf(history, userId)
      modifies this
      ensures Valid()
      ensures userId == "" ==> saved.None? && users == old(users) && history == old(history)
      ensures userId != "" ==>
        var q := Record(answers, parseFloat, now);
        saved == Some(Saved(q.riskLevel, q.riskScore, newId))
        && history == old(history)[userId := HistoryOf(old(history), userId)[newId := q]]
        && users == old(users)[userId := SavedUser(UserOf(old(users), userId), newId, q)]
      ensures userId != "" ==> |HistoryOf(history, userId)| == |HistoryOf(old(history), userId)| + 1
    {
      if userId == "" {
        return None;
      }
      var q := Record(answers, parseFloat, now);
      SavePreservesConsistency(users, history, userId, newId, q);
      history := history[userId := HistoryOf(history, userId)[newId := q]];
      users := users[userId := SavedUser(UserOf(users, userId), newId, q)];
      saved := Some(Saved(q.riskLevel, q.riskScore, newId));
    }

    /** `updateQuizWithAIAnalysis`: false, and nothing written, when an id is
        empty or the record does not exist. */
    method UpdateQuizWithAIAnalysis(userId: string, quizId: string, a: AiJson.Analysis) returns (ok: bool)
      requires Valid()
      modifies this
      ensures Valid()
      ensures ok <==> userId != "" && quizId != "" && userId in old(history) && quizId in old(history)[userId]
      ensures !ok ==> users == old(users) && history == old(history)
      ensures ok ==>
        history == old(history)[userId := old(history)[userId][quizId := AnalysedRecord(old(history)[userId][quizId], a)]]
        && users == (if userId in old(users) then old(users)[userId := AnalysedUser(old(users)[userId], quizId, a)] else old(users))
    {
      if userId == "" || quizId == "" {
        return false;
      }
      if userId !in history || quizId !in history[userId] {
        return false;
      }
      UpdatePreservesConsistency(users, history, userId, quizId, a);
      history := history[userId := history[userId][quizId := AnalysedRecord(history[userId][quizId], a)]];
      if userId in users {
        users := users[userId := AnalysedUser(users[userId], quizId, a)];
      }
      ok := true;
    }
  }
}
