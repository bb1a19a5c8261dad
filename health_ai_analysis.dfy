/** The `/api/health-ai-analysis` route: the model's reply is searched for a
    Markdown code fence around a JSON object, the object (or the whole reply)
    is parsed and checked for the three required parts, and every failure of
    the model falls back to an analysis derived from keywords of the prompt. */
module HealthAiAnalysis {
  import opened Wrappers
  import opened Text
  import opened AiJson

  const Fence := "```"

  /** The first position at or after `p` that is not white space (`\s*`). */
  function SkipSpaces(s: string, p: nat): (q: nat)
    requires p <= |s|
    ensures p <= q <= |s|
    ensures forall j :: p <= j < q ==> IsSpace(s[j])
    ensures q < |s| ==> !IsSpace(s[q])
    decreases |s| - p
  {
    if p < |s| && IsSpace(s[p]) then SkipSpaces(s, p + 1) else p
  }

  /** A `}` at `j` can end the match: after it come optional white space and a
      closing fence. */
  predicate Closes(s: string, j: int) {
    0 <= j < |s| && s[j] == '}' && OccursAt(s, Fence, SkipSpaces(s, j + 1))
  }

  /** The lazy `[\s\S]*?}`: the first position from `m` on where the object can
      close. */
  function CloseFrom(s: string, m: nat): (r: Option<nat>)
    requires m <= |s|
    ensures r.Some? ==> m <= r.value < |s| && Closes(s, r.value)
                        && forall j :: m <= j < r.value ==> !Closes(s, j)
    ensures r.None? ==> forall j :: m <= j < |s| ==> !Closes(s, j)
    decreases |s| - m
  {
    if m == |s| then None
    else if Closes(s, m) then Some(m)
    else CloseFrom(s, m + 1)
  }

  /** Where the object would open for a fence at `i`: after the fence, an
      optional `json`, and white space. When `json` follows the fence, only
      that reading can lead to `{`, so it is the one taken. */
  function OpenAfterFence(s: string, i: nat): (k: nat)
    requires OccursAt(s, Fence, i)
    ensures i + 3 <= k <= |s|
  {
    if OccursAt(s, "json", i + 3) then SkipSpaces(s, i + 7) else SkipSpaces(s, i + 3)
  }

  /** The regular expression ```` /```(?:json)?\s*({[\s\S]*?})\s*```/ ```` tried
      at position `i` only; the result is the captured object text. */
  function MatchAt(s: string, i: nat): (r: Option<string>)
    requires i <= |s|
    ensures r.Some? ==> OccursAt(s, Fence, i)
    ensures r.Some? ==> |r.value| >= 2 && r.value[0] == '{' && r.value[|r.value| - 1] == '}'
    ensures r.Some? ==> OccursAt(s, r.value, OpenAfterFence(s, i))
    ensures r.Some? ==> var k := OpenAfterFence(s, i); var m := k + |r.value| - 1;
      Closes(s, m) && forall j :: k < j < m ==> !Closes(s, j)
    ensures OccursAt(s, Fence, i) ==> var k := OpenAfterFence(s, i);
      (r.Some? <==> k < |s| && s[k] == '{' && exists j :: k < j < |s| && Closes(s, j))
  {
    if !OccursAt(s, Fence, i) then None
    else
      var k := OpenAfterFence(s, i);
      if k < |s| && s[k] == '{' then
        match CloseFrom(s, k + 1)
        case None => None
        case Some(m) => Some(s[k..m + 1])
      else None
  }

  /** `text.match(regex)` finds the leftmost position where the expression
      matches. */
  function FirstMatch(s: string, i: nat): (p: Option<nat>)
    requires i <= |s|
    ensures p.Some? ==> i <= p.value <= |s| && MatchAt(s, p.value).Some?
    ensures forall j :: i <= j <= |s| && (p.None? || j < p.value) ==> MatchAt(s, j).None?
    decreases |s| - i
  {
    if MatchAt(s, i).Some? then Some(i)
    else if i == |s| then None
    else FirstMatch(s, i + 1)
  }

  /** The text handed to `JSON.parse`: the object of the leftmost fenced match
      if there is one, otherwise the whole reply. */
  function TextToParse(reply: string): (t: string)
    ensures !Contains(reply, Fence) ==> t == reply
    ensures FirstMatch(reply, 0).None? ==> t == reply
    ensures FirstMatch(reply, 0).Some? ==> Some(t) == MatchAt(reply, FirstMatch(reply, 0).value)
    ensures exists k :: OccursAt(reply, t, k)
  {
    match FirstMatch(reply, 0)
    case Some(p) =>
      var t := MatchAt(reply, p).value;
      assert OccursAt(reply, t, OpenAfterFence(reply, p));
      assert OccursAt(reply, Fence, p);
      t
    case None =>
      assert OccursAt(reply, reply, 0);
      reply
  }

  /** A reply made of a ```` ```json ```` fence on a line of its own, `obj`,
      and a closing fence on the next line. */
  function FencedReply(obj: string): (s: string)
    ensures |s| == |obj| + 12
    ensures s[..8] == "```json\n" && s[8..8 + |obj|] == obj && s[8 + |obj|..] == "\n```"
  {
    "```json\n" + obj + "\n```"
  }

  /** The object's closing brace is followed by a newline and the fence. */
  lemma ClosesAtObjectEnd(obj: string)
    requires |obj| >= 2 && obj[|obj| - 1] == '}'
    ensures Closes(FencedReply(obj), 8 + |obj| - 1)
  {
    var s := FencedReply(obj);
    var last := 8 + |obj| - 1;
    assert s[last] == obj[|obj| - 1];
    assert s[last + 1] == '\n';
    assert SkipSpaces(s, last + 2) == last + 2 by {
      assert s[last + 2] == '`';
    }
    assert s[last + 2..last + 5] == Fence;
  }

  /** No brace inside the object can end the match: what follows it up to the
      next non-space character lies inside the object, which has no backquote. */
  lemma NoCloseInsideObject(obj: string, j: nat)
    requires |obj| >= 2 && obj[|obj| - 1] == '}' && '`' !in obj
    requires 9 <= j < 8 + |obj| - 1
    ensures !Closes(FencedReply(obj), j)
  {
    var s := FencedReply(obj);
    var last := 8 + |obj| - 1;
    var q := SkipSpaces(s, j + 1);
    assert s[last] == '}';
    assert q <= last;
    assert s[q] == obj[q - 8];
  }

  /** A reply that is exactly a ```` ```json ```` fence around an object with
      no backquote in it yields that object. */
  lemma FencedObjectExtracted(obj: string)
    requires |obj| >= 2 && obj[0] == '{' && obj[|obj| - 1] == '}'
    requires '`' !in obj
    ensures TextToParse(FencedReply(obj)) == obj
  {
    var s := FencedReply(obj);
    var last := 8 + |obj| - 1;
    assert OccursAt(s, Fence, 0) && OccursAt(s, "json", 3);
    assert SkipSpaces(s, 7) == 8 by {
      assert IsSpace(s[7]) && s[8] == obj[0];
      assert SkipSpaces(s, 8) == 8;
    }
    ClosesAtObjectEnd(obj);
    forall j | 9 <= j < last
      ensures !Closes(s, j)
    {
      NoCloseInsideObject(obj, j);
    }
    assert CloseFrom(s, 9) == Some(last);
    assert s[8..last + 1] == obj;
    assert MatchAt(s, 0) == Some(obj);
    assert FirstMatch(s, 0) == Some(0);
  }

  /** The structure check of the route: `riskLevel`, `recommendations` and
      `healthInsights` are all truthy; `riskScore` is not looked at. */
  predicate HasRequiredParts(j: Json)
    ensures HasRequiredParts(j) ==>
      j.JObj? && "riskLevel" in j.fields && "recommendations" in j.fields && "healthInsights" in j.fields
  {
    Truthy(Field(j, "riskLevel")) && Truthy(Field(j, "recommendations")) && Truthy(Field(j, "healthInsights"))
  }

  const Obese := "BMI Category: Obese"
  const Overweight := "BMI Category: Overweight"
  const Smoker := "Smoking status: yes"

  /** The prompt phrases the fallback reacts to, each found or not. */
  datatype Keywords = Keywords(
    obese: bool, overweight: bool, healthyWeight: bool, bmiThirties: bool, smoker: bool,
    days01: bool, days45: bool, days67: bool, fruits01: bool, fruits23: bool,
    sleepUnder5: bool, sleep78: bool, stressHigh: bool, water02: bool,
    sedentary: bool, light: bool)

  function KeywordsOf(prompt: string): Keywords {
    Keywords(
      Contains(prompt, Obese), Contains(prompt, Overweight),
      Contains(prompt, "BMI Category: Healthy Weight"), Contains(prompt, "BMI: 3"), Contains(prompt, Smoker),
      Contains(prompt, "activity days per week: 0-1"), Contains(prompt, "activity days per week: 4-5"),
      Contains(prompt, "activity days per week: 6-7"),
      Contains(prompt, "Fruits and vegetables intake: 0-1"), Contains(prompt, "Fruits and vegetables intake: 2-3"),
      Contains(prompt, "Sleep duration: less-than-5"), Contains(prompt, "Sleep duration: 7-8"),
      Contains(prompt, "Stress level: high"), Contains(prompt, "Water intake: 0-2"),
      Contains(prompt, "Activity level: sedentary"), Contains(prompt, "Activity level: light"))
  }

  /** The fallback level: High for obesity or smoking, else Moderate for
      overweight, else Low. */
  function RiskLevel(k: Keywords): (level: string)
    ensures level == "High" <==> k.obese || k.smoker
    ensures level == "Moderate" <==> !k.obese && !k.smoker && k.overweight
    ensures level == "Low" <==> !k.obese && !k.smoker && !k.overweight
  {
    if k.obese || k.smoker then "High"
    else if k.overweight then "Moderate"
    else "Low"
  }

  /** The fallback score looks at the BMI category only. */
  function RiskScore(k: Keywords): (score: int)
    ensures score in {75, 55, 30}
    ensures score == 75 <==> k.obese
    ensures score == 55 <==> !k.obese && k.overweight
  {
    if k.obese then 75
    else if k.overweight then 55
    else 30
  }

  /** One of two fixed texts, by a keyword test. */
  function Pick(cond: bool, yes: string, no: string): string {
    if cond then yes else no
  }

  /** The fixed texts of the fallback, in pairs: the first of each pair is
      chosen when its phrase occurs in the prompt. */
  const ExerciseStart := "Start with gentle walks for 10 minutes daily, gradually increasing to 30 minutes three times per week."
  const ExerciseContinue := "Continue your current exercise routine, but add variety with strength training twice weekly."
  const NutritionAdd := "Focus on adding one fruit at breakfast and vegetables with lunch and dinner daily."
  const NutritionMaintain := "Maintain your balanced diet, but consider adding more plant-based proteins and reducing processed foods."
  const SleepMore := "Prioritize getting at least 6 hours of sleep by establishing a regular sleep schedule and bedtime routine."
  const SleepQuality := "Your sleep duration is good; focus on improving quality by limiting screen time before bed."
  const StressBreathe := "Practice 5-minute deep breathing exercises twice daily and consider a 10-minute daily meditation practice."
  const StressContinue := "Continue your good stress management practices and add outdoor activities to further boost mood."
  const StrengthWeight := "Maintaining a healthy weight range"
  const StrengthInitiative := "Taking initiative for health improvement"
  const StrengthActivity := "Consistent physical activity routine"
  const StrengthAwareness := "Awareness of personal health metrics"
  const StrengthSleep := "Prioritizing adequate sleep"
  const StrengthEngaging := "Engaging with health assessment tools"
  const AreaWater := "Increasing daily water intake to at least 2 liters"
  const AreaHydration := "Maintaining hydration throughout the day"
  const AreaProduce := "Adding more fruits and vegetables to your diet"
  const AreaVariety := "Varying your nutritional sources"
  const AreaActivity := "Increasing overall physical activity level"
  const AreaExerciseVariety := "Adding variety to exercise routine"
  const RiskCardio := "Increased risk of cardiovascular issues if weight remains elevated"
  const RiskCholesterol := "Monitor cholesterol levels regularly as you age"
  const RiskSmoking := "High risk of respiratory and cardiovascular disease due to smoking"
  const RiskJoints := "Watch for signs of joint issues as you maintain your exercise routine"
  const RiskCognitive := "Increased risk of cognitive decline with chronic sleep deprivation"
  const RiskStress := "Pay attention to stress management as life demands change"

  function MockRecommendations(k: Keywords): Recommendations {
    Recommendations(
      Pick(k.days01, ExerciseStart, ExerciseContinue),
      Pick(k.fruits01, NutritionAdd, NutritionMaintain),
      Pick(k.sleepUnder5, SleepMore, SleepQuality),
      Pick(k.stressHigh, StressBreathe, StressContinue))
  }

  function MockInsights(k: Keywords): (h: Insights)
    ensures |h.strengths| == 3 && |h.areasForImprovement| == 3 && |h.longTermRisks| == 3
  {
    Insights(
      [ Pick(k.healthyWeight, StrengthWeight, StrengthInitiative),
        Pick(k.days45 || k.days67, StrengthActivity, StrengthAwareness),
        Pick(k.sleep78, StrengthSleep, StrengthEngaging) ],
      [ Pick(k.water02, AreaWater, AreaHydration),
        Pick(k.fruits01 || k.fruits23, AreaProduce, AreaVariety),
        Pick(k.sedentary || k.light, AreaActivity, AreaExerciseVariety) ],
      [ Pick(k.bmiThirties, RiskCardio, RiskCholesterol),
        Pick(k.smoker, RiskSmoking, RiskJoints),
        Pick(k.sleepUnder5, RiskCognitive, RiskStress) ])
  }

  /** The fallback analysis for the phrases found in a prompt. */
  function MockOf(k: Keywords): (a: Analysis)
    ensures a.riskLevel in {"High", "Moderate", "Low"}
    ensures |a.healthInsights.strengths| == 3
    ensures |a.healthInsights.areasForImprovement| == 3
    ensures |a.healthInsights.longTermRisks| == 3
  {
    Analysis(RiskLevel(k), RiskScore(k) as real, MockRecommendations(k), MockInsights(k))
  }

  /** `getMockResponse`: fixed texts chosen by which phrases occur in the
      prompt. */
  function Mock(prompt: string): (a: Analysis)
    ensures a.riskLevel in {"High", "Moderate", "Low"} && a.riskScore in {75.0, 55.0, 30.0}
    ensures a.recommendations.exercise ==
      if Contains(prompt, "activity days per week: 0-1") then ExerciseStart else ExerciseContinue
    ensures a.recommendations.nutrition ==
      if Contains(prompt, "Fruits and vegetables intake: 0-1") then NutritionAdd else NutritionMaintain
    ensures a.recommendations.sleep ==
      if Contains(prompt, "Sleep duration: less-than-5") then SleepMore else SleepQuality
    ensures a.recommendations.mentalHealth ==
      if Contains(prompt, "Stress level: high") then StressBreathe else StressContinue
    ensures a.healthInsights.strengths == [
      if Contains(prompt, "BMI Category: Healthy Weight") then StrengthWeight else StrengthInitiative,
      if Contains(prompt, "activity days per week: 4-5") || Contains(prompt, "activity days per week: 6-7")
        then StrengthActivity else StrengthAwareness,
      if Contains(prompt, "Sleep duration: 7-8") then StrengthSleep else StrengthEngaging]
    ensures a.healthInsights.areasForImprovement == [
      if Contains(prompt, "Water intake: 0-2") then AreaWater else AreaHydration,
      if Contains(prompt, "Fruits and vegetables intake: 0-1") || Contains(prompt, "Fruits and vegetables intake: 2-3")
        then AreaProduce else AreaVariety,
      if Contains(prompt, "Activity level: sedentary") || Contains(prompt, "Activity level: light")
        then AreaActivity else AreaExerciseVariety]
    ensures a.healthInsights.longTermRisks == [
      if Contains(prompt, "BMI: 3") then RiskCardio else RiskCholesterol,
      if Contains(prompt, Smoker) then RiskSmoking else RiskJoints,
      if Contains(prompt, "Sleep duration: less-than-5") then RiskCognitive else RiskStress]
  {
    MockOf(KeywordsOf(prompt))
  }

  /** The fallback's risk level and score, in terms of the phrases of the
      prompt. */
  lemma MockRisk(prompt: string)
    ensures Mock(prompt).riskLevel == "High" <==> Contains(prompt, Obese) || Contains(prompt, Smoker)
    ensures Mock(prompt).riskLevel == "Moderate" <==>
      !Contains(prompt, Obese) && !Contains(prompt, Smoker) && Contains(prompt, Overweight)
    ensures Mock(prompt).riskLevel == "Low" <==>
      !Contains(prompt, Obese) && !Contains(prompt, Smoker) && !Contains(prompt, Overweight)
    ensures Mock(prompt).riskScore in {75.0, 55.0, 30.0}
    ensures Mock(prompt).riskScore == 75.0 <==> Contains(prompt, Obese)
    ensures Mock(prompt).riskScore == 55.0 <==> !Contains(prompt, Obese) && Contains(prompt, Overweight)
  {
    var k := KeywordsOf(prompt);
    assert k.obese == Contains(prompt, Obese) && k.smoker == Contains(prompt, Smoker);
    assert k.overweight == Contains(prompt, Overweight);
  }

  /** The fallback depends on the prompt only through the phrases it contains. */
  lemma MockDependsOnKeywords(p1: string, p2: string)
    requires KeywordsOf(p1) == KeywordsOf(p2)
    ensures Mock(p1) == Mock(p2)
  {
  }

  /** A smoker who is not obese is rated High but scored as the BMI category
      alone says: 55 when overweight, 30 otherwise. */
  lemma SmokerNotObese(prompt: string)
    requires Contains(prompt, Smoker) && !Contains(prompt, Obese)
    ensures Mock(prompt).riskLevel == "High"
    ensures Mock(prompt).riskScore == (if Contains(prompt, Overweight) then 55.0 else 30.0)
  {
    MockRisk(prompt);
  }

  /** Every fallback passes the route's own structure check. */
  lemma MockHasRequiredParts(k: Keywords)
    ensures HasRequiredParts(ToJson(MockOf(k)))
  {
    var a := MockOf(k);
    assert Field(ToJson(a), "riskLevel") == Some(JStr(a.riskLevel));
  }

  /** What the request and the model delivered. */
  datatype Request =
    | Unreadable                          // the request body is not JSON
    | Prompts(userPrompt: Option<string>) // `userPrompt`, when it is a string

  datatype ModelReply =
    | CallFailed                          // the model could not be reached
    | Reply(content: Option<string>)      // the reply text, possibly null

  /** The answer to a request that cannot be served. */
  const ServerError := Response(500, JObj(map["error" := JStr("Failed to process health analysis")]))

  /** The fallback answer, or the server error when there is no prompt text to
      build it from (the keyword tests then fail on `undefined`). */
  function Fallback(userPrompt: Option<string>): (resp: Response)
    ensures userPrompt.Some? ==> resp.status == 200 && HasRequiredParts(resp.body)
    ensures userPrompt.Some? ==> resp.body == ToJson(Mock(userPrompt.value))
    ensures userPrompt.None? ==> resp == ServerError
  {
    match userPrompt
    case Some(p) =>
      MockHasRequiredParts(KeywordsOf(p));
      Response(200, ToJson(Mock(p)))
    case None => ServerError
  }

  /** The route once the request is read: the model's answer when it parses
      and has the required parts, the fallback in every other case. */
  function HandlePrompt(userPrompt: Option<string>, reply: ModelReply, parse: string -> Option<Json>): (resp: Response)
    ensures userPrompt.Some? ==> resp.status == 200 && HasRequiredParts(resp.body)
    ensures reply.CallFailed? || reply.content.None? ==> resp == Fallback(userPrompt)
    ensures reply.Reply? && reply.content.Some? ==>
      var parsed := parse(TextToParse(reply.content.value));
      if parsed.Some? && HasRequiredParts(parsed.value) then resp == Response(200, parsed.value)
      else resp == Fallback(userPrompt)
  {
    match reply
    case CallFailed => Fallback(userPrompt)
    case Reply(None) => Fallback(userPrompt)
    case Reply(Some(text)) =>
      var parsed := parse(TextToParse(text));
      if parsed.Some? && HasRequiredParts(parsed.value) then Response(200, parsed.value)
      else Fallback(userPrompt)
  }

  /** The route. `parse` is `JSON.parse`, `None` where it throws. An unreadable
      request is a server error; otherwise the request's prompt is handled. */
  function Handle(req: Request, reply: ModelReply, parse: string -> Option<Json>): (resp: Response)
    ensures req.Unreadable? ==> resp == ServerError
    ensures req.Prompts? ==> resp == HandlePrompt(req.userPrompt, reply, parse)
  {
    match req
    case Unreadable => ServerError
    case Prompts(userPrompt) => HandlePrompt(userPrompt, reply, parse)
  }
}
