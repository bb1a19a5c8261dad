/** The health quiz page: eleven questions shown one at a time, the answers
    kept as text by question id, and the results computed from the first five
    answers when the last question is passed. */
module Quiz {
  import opened Wrappers
  import opened JsNum
  import opened HealthMetrics
  import Text

  /** Number of questions in the quiz. */
  const QuestionCount: nat := 11

  /** Question ids are 1 .. 11, in the order the questions are shown. */
  function QuestionId(index: int): (id: int)
    ensures index == id - 1
  {
    index + 1
  }

  /** Ids of the questions the calculator reads: the first question whose text
      mentions age, gender, height and weight, and the first one of the
      "Physical Activity" category (the days-per-week question). */
  const AgeId: int := 1
  const GenderId: int := 2
  const HeightId: int := 3
  const WeightId: int := 4
  const ActivityDaysId: int := 5

  /** The answers the quiz starts with. */
  const DefaultAnswers: map<int, string> := map[
    1 := "35", 2 := "male", 3 := "175", 4 := "70", 5 := "2-3", 6 := "moderate",
    7 := "2-3", 8 := "6-8", 9 := "7-8", 10 := "no", 11 := "moderate"]

  /** An answer counts when it is present and not the empty string. */
  predicate Answered(answers: map<int, string>, id: int) {
    id in answers && answers[id] != ""
  }

  /** Height or weight: the answer read by `parseFloat`, or 0 without an answer. */
  function NumberAnswer(answers: map<int, string>, id: int, parseFloat: string -> Num): (n: Num)
    ensures !Answered(answers, id) ==> n == Finite(0.0)
    ensures Answered(answers, id) ==> n == parseFloat(answers[id])
  {
    if Answered(answers, id) then parseFloat(answers[id]) else Finite(0.0)
  }

  /** The age: the answer read by `parseInt`, or 30 without an answer. */
  function AgeAnswer(answers: map<int, string>): (n: Num)
    ensures !Answered(answers, AgeId) ==> n == Finite(30.0)
    ensures Answered(answers, AgeId) ==> n == ParseInt(answers[AgeId])
  {
    if Answered(answers, AgeId) then ParseInt(answers[AgeId]) else Finite(30.0)
  }

  /** The gender: the answer, or `"male"` without an answer. */
  function GenderAnswer(answers: map<int, string>): (g: string)
    ensures g != ""
    ensures Answered(answers, GenderId) ==> g == answers[GenderId]
    ensures !Answered(answers, GenderId) ==> g == "male"
  {
    if Answered(answers, GenderId) then answers[GenderId] else "male"
  }

  /** The activity level derived from the days-per-week answer. */
  function ActivityAnswer(answers: map<int, string>): (level: string)
    ensures level in {"sedentary", "light", "moderate", "active"}
    ensures ActivityDaysId in answers && answers[ActivityDaysId] == "0-1" ==> level == "sedentary"
    ensures ActivityDaysId in answers && answers[ActivityDaysId] == "2-3" ==> level == "light"
    ensures ActivityDaysId in answers && answers[ActivityDaysId] == "6-7" ==> level == "active"
    ensures !(ActivityDaysId in answers && answers[ActivityDaysId] in {"0-1", "2-3", "6-7"}) ==> level == "moderate"
  {
    ActivityLevelFromDays(if ActivityDaysId in answers then Some(answers[ActivityDaysId]) else None)
  }

  /** What `calculateResults` computes: metrics exactly when both height and
      weight are truthy numbers (neither zero nor NaN), nothing otherwise. */
  function Results(answers: map<int, string>, parseFloat: string -> Num): (r: Option<Metrics>)
    ensures r.Some? <==>
      Truthy(NumberAnswer(answers, HeightId, parseFloat)) && Truthy(NumberAnswer(answers, WeightId, parseFloat))
    ensures r.Some? ==>
      var h, w := NumberAnswer(answers, HeightId, parseFloat).v, NumberAnswer(answers, WeightId, parseFloat).v;
      r.value.category == CategoryOf(Bmi(h, w)) && r.value.idealMin <= r.value.idealMax
      && r.value == Calculate(h, w, AgeAnswer(answers), GenderAnswer(answers), ActivityAnswer(answers))
    ensures r.Some? ==> (r.value.bmr.NaN? <==> AgeAnswer(answers).NaN?)
  {
    var h := NumberAnswer(answers, HeightId, parseFloat);
    var w := NumberAnswer(answers, WeightId, parseFloat);
    if Truthy(h) && Truthy(w) then
      Some(Calculate(h.v, w.v, AgeAnswer(answers), GenderAnswer(answers), ActivityAnswer(answers)))
    else None
  }

  /** With the answers the quiz starts with (175 cm, 70 kg, 35 years, male,
      2-3 active days) the results are in the healthy band, with a light
      activity level. */
  lemma DefaultResults(parseFloat: string -> Num)
    requires parseFloat("175") == Finite(175.0) && parseFloat("70") == Finite(70.0)
    ensures Results(DefaultAnswers, parseFloat).Some?
    ensures Results(DefaultAnswers, parseFloat).value.category == HealthyWeight
    ensures ActivityAnswer(DefaultAnswers) == "light"
  {
    assert DefaultAnswers[HeightId] == "175" && DefaultAnswers[WeightId] == "70";
    assert NumberAnswer(DefaultAnswers, HeightId, parseFloat) == Finite(175.0);
    assert NumberAnswer(DefaultAnswers, WeightId, parseFloat) == Finite(70.0);
    var b := Bmi(175.0, 70.0);
    assert b * 3.0625 == 70.0;
    assert CategoryOf(b) == HealthyWeight;
  }

  /** `calculateResults` reads the answers only through the height, weight,
      age, gender and activity readers. */
  lemma ResultsOfReadings(a: map<int, string>, b: map<int, string>, parseFloat: string -> Num)
    requires NumberAnswer(a, HeightId, parseFloat) == NumberAnswer(b, HeightId, parseFloat)
    requires NumberAnswer(a, WeightId, parseFloat) == NumberAnswer(b, WeightId, parseFloat)
    requires AgeAnswer(a) == AgeAnswer(b) && GenderAnswer(a) == GenderAnswer(b)
    requires ActivityAnswer(a) == ActivityAnswer(b)
    ensures Results(a, parseFloat) == Results(b, parseFloat)
  {
  }

  /** A missing or empty age answer is read as age 30. */
  lemma AgeDefault(answers: map<int, string>, parseFloat: string -> Num)
    ensures Results(answers - {AgeId}, parseFloat) == Results(answers[AgeId := "30"], parseFloat)
    ensures Results(answers[AgeId := ""], parseFloat) == Results(answers[AgeId := "30"], parseFloat)
  {
    ParseThirty();
    AgeTextDefault(answers, "30", parseFloat);
  }

  /** A missing or empty age answer gives the same results as any age text
      that reads as 30. */
  lemma AgeTextDefault(answers: map<int, string>, t: string, parseFloat: string -> Num)
    requires t != "" && ParseInt(t) == Finite(30.0)
    ensures Results(answers - {AgeId}, parseFloat) == Results(answers[AgeId := t], parseFloat)
    ensures Results(answers[AgeId := ""], parseFloat) == Results(answers[AgeId := t], parseFloat)
  {
    var missing, empty, given := answers - {AgeId}, answers[AgeId := ""], answers[AgeId := t];
    assert AgeAnswer(given) == Finite(30.0);
    AgreeExceptRemoved(answers, AgeId, t);
    AgreeExceptUpdated(answers, AgeId, "", t);
    AgeReadsAs30(missing, given, parseFloat);
    AgeReadsAs30(empty, given, parseFloat);
  }

  /** The two maps hold the same answers except possibly under `id`. */
  ghost predicate AgreeExcept(a: map<int, string>, b: map<int, string>, id: int) {
    forall k :: k != id ==> (k in a <==> k in b) && (k in a ==> a[k] == b[k])
  }

  /** Removing an answer or setting it keeps every other answer. */
  lemma AgreeExceptRemoved(answers: map<int, string>, id: int, t: string)
    ensures AgreeExcept(answers - {id}, answers[id := t], id)
  {
  }

  /** Setting an answer to either of two values keeps every other answer. */
  lemma AgreeExceptUpdated(answers: map<int, string>, id: int, t: string, u: string)
    ensures AgreeExcept(answers[id := t], answers[id := u], id)
  {
  }

  /** Two answer maps that differ at most in the age, and read the same age,
      give the same results. */
  lemma AgeReadsAs30(a: map<int, string>, b: map<int, string>, parseFloat: string -> Num)
    requires AgreeExcept(a, b, AgeId) && AgeAnswer(a) == AgeAnswer(b)
    ensures Results(a, parseFloat) == Results(b, parseFloat)
  {
    OtherReadings(a, b, AgeId, parseFloat);
    ResultsOfReadings(a, b, parseFloat);
  }

  /** Two answer maps that differ at most under `id` agree on every reader
      that does not read `id`. */
  lemma OtherReadings(a: map<int, string>, b: map<int, string>, id: int, parseFloat: string -> Num)
    requires AgreeExcept(a, b, id)
    ensures id != HeightId ==> NumberAnswer(a, HeightId, parseFloat) == NumberAnswer(b, HeightId, parseFloat)
    ensures id != WeightId ==> NumberAnswer(a, WeightId, parseFloat) == NumberAnswer(b, WeightId, parseFloat)
    ensures id != AgeId ==> AgeAnswer(a) == AgeAnswer(b)
    ensures id != GenderId ==> GenderAnswer(a) == GenderAnswer(b)
    ensures id != ActivityDaysId ==> ActivityAnswer(a) == ActivityAnswer(b)
  {
    assert HeightId != id ==> (HeightId in a <==> HeightId in b);
    assert WeightId != id ==> (WeightId in a <==> WeightId in b);
    assert AgeId != id ==> (AgeId in a <==> AgeId in b);
    assert GenderId != id ==> (GenderId in a <==> GenderId in b);
    assert ActivityDaysId != id ==> (ActivityDaysId in a <==> ActivityDaysId in b);
  }

  /** The default age text reads as 30. */
  lemma ParseThirty()
    ensures ParseInt("30") == Finite(30.0)
  {
    assert Text.TrimStart("30") == "30";
    assert DigitPrefix("30") == "30" by {
      assert DigitPrefix("0") == "0";
    }
    assert DigitsValue("30") == 30;
  }

  /** A missing or empty gender answer is read as `"male"`. */
  lemma GenderDefault(answers: map<int, string>, parseFloat: string -> Num)
    ensures Results(answers - {GenderId}, parseFloat) == Results(answers[GenderId := "male"], parseFloat)
    ensures Results(answers[GenderId := ""], parseFloat) == Results(answers[GenderId := "male"], parseFloat)
  {
    var missing, empty, male := answers - {GenderId}, answers[GenderId := ""], answers[GenderId := "male"];
    AgreeExceptRemoved(answers, GenderId, "male");
    AgreeExceptUpdated(answers, GenderId, "", "male");
    OtherReadings(missing, male, GenderId, parseFloat);
    OtherReadings(empty, male, GenderId, parseFloat);
    ResultsOfReadings(missing, male, parseFloat);
    ResultsOfReadings(empty, male, parseFloat);
  }

  /** A missing, empty or unknown days-per-week answer is read as "4-5". */
  lemma ActivityDefault(answers: map<int, string>, parseFloat: string -> Num)
    requires !(ActivityDaysId in answers && answers[ActivityDaysId] in {"0-1", "2-3", "6-7"})
    ensures Results(answers, parseFloat) == Results(answers[ActivityDaysId := "4-5"], parseFloat)
  {
    var moderate := answers[ActivityDaysId := "4-5"];
    assert AgreeExcept(answers, moderate, ActivityDaysId);
    OtherReadings(answers, moderate, ActivityDaysId, parseFloat);
    ResultsOfReadings(answers, moderate, parseFloat);
  }

  /** Clearing the height answer makes the results impossible to compute. */
  lemma NoHeightNoResults(answers: map<int, string>, parseFloat: string -> Num)
    requires !Answered(answers, HeightId)
    ensures Results(answers, parseFloat).None?
  {
  }

  /** The state of the quiz page. */
  class QuizSession {
    var currentQuestion: int
    var answers: map<int, string>
    var showResults: bool
    var metrics: Option<Metrics>

    /** The question index always names one of the questions. */
    predicate Valid()
      reads this
    {
      0 <= currentQuestion < QuestionCount
    }

    /** A fresh page: first question, default answers, no results yet. */
    constructor ()
      ensures Valid()
      ensures currentQuestion == 0 && answers == DefaultAnswers
      ensures !showResults && metrics == None
    {
      currentQuestion := 0;
      answers := DefaultAnswers;
      showResults := false;
      metrics := None;
    }

    /** The progress bar: the share of questions reached, in percent. */
    function Progress(): (p: real)
      reads this
      requires Valid()
      ensures 0.0 < p <= 100.0
      ensures p == 100.0 <==> currentQuestion == QuestionCount - 1
    {
      (currentQuestion + 1) as real / (QuestionCount as real) * 100.0
    }

    /** `checkCurrentAnswer`: the Next button is enabled exactly when this holds. */
    predicate CurrentAnswered()
      reads this
    {
      Answered(answers, QuestionId(currentQuestion))
    }

    /** A choice answer replaces the answer to the current question only. */
    method AnswerChange(value: string)
      requires Valid()
      modifies this
      ensures Valid()
      ensures answers == old(answers)[QuestionId(currentQuestion) := value]
      ensures currentQuestion == old(currentQuestion) && showResults == old(showResults)
      ensures metrics == old(metrics)
      ensures CurrentAnswered() <==> value != ""
    {
      answers := answers[QuestionId(currentQuestion) := value];
    }

    /** A numeric answer is stored verbatim, the empty string included: there
        is no lower or upper bound. */
    method NumericChange(value: string, questionId: int)
      requires Valid()
      modifies this
      ensures Valid()
      ensures answers == old(answers)[questionId := value]
      ensures currentQuestion == old(currentQuestion) && showResults == old(showResults)
      ensures metrics == old(metrics)
    {
      if value == "" {
        answers := answers[questionId := ""];
        return;
      }
      answers := answers[questionId := value];
    }

    /** `calculateResults`: stores the metrics when height and weight are both
        truthy and leaves the previous metrics in place otherwise. */
    method CalculateResults(parseFloat: string -> Num)
      requires Valid()
      modifies this
      ensures Valid()
      ensures Results(answers, parseFloat).Some? ==> metrics == Results(answers, parseFloat)
      ensures Results(answers, parseFloat).None? ==> metrics == old(metrics)
      ensures currentQuestion == old(currentQuestion) && answers == old(answers)
      ensures showResults == old(showResults)
    {
      var r := Results(answers, parseFloat);
      if r.Some? {
        metrics := r;
      }
    }

    /** `handleNext`: one question forward, or, on the last question, the
        results are computed and shown. */
    method HandleNext(parseFloat: string -> Num)
      requires Valid()
      modifies this
      ensures Valid()
      ensures old(currentQuestion) < QuestionCount - 1 ==>
        currentQuestion == old(currentQuestion) + 1 && metrics == old(metrics)
        && showResults == old(showResults)
      ensures old(currentQuestion) == QuestionCount - 1 ==>
        currentQuestion == old(currentQuestion) && showResults
        && (Results(answers, parseFloat).Some? ==> metrics == Results(answers, parseFloat))
        && (Results(answers, parseFloat).None? ==> metrics == old(metrics))
      ensures answers == old(answers)
    {
      if currentQuestion < QuestionCount - 1 {
        currentQuestion := currentQuestion + 1;
      } else {
        CalculateResults(parseFloat);
        showResults := true;
      }
    }

    /** The Back button: one question back, never below the first. */
    method Back()
      requires Valid()
      modifies this
      ensures Valid()
      ensures old(currentQuestion) > 0 ==> currentQuestion == old(currentQuestion) - 1
      ensures old(currentQuestion) == 0 ==> currentQuestion == 0
      ensures answers == old(answers) && metrics == old(metrics) && showResults == old(showResults)
    {
      if currentQuestion > 0 {
        currentQuestion := currentQuestion - 1;
      }
    }

    /** `handleRetakeQuiz`: back to the first question with no answers at all,
        so that question is unanswered. */
    method RetakeQuiz()
      requires Valid()
      modifies this
      ensures Valid()
      ensures currentQuestion == 0 && answers == map[] && !showResults && metrics == None
      ensures !CurrentAnswered()
    {
      currentQuestion := 0;
      answers := map[];
      showResults := false;
      metrics := None;
    }
  }

  /** After a retake nothing is answered, so the calculator falls back to its
      defaults and, lacking height and weight, computes nothing. */
  lemma RetakeLeavesNoResults(parseFloat: string -> Num)
    ensures Results(map[], parseFloat).None?
    ensures AgeAnswer(map[]) == Finite(30.0) && GenderAnswer(map[]) == "male"
    ensures ActivityAnswer(map[]) == "moderate"
  {
  }
}
