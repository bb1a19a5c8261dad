/** The `/api/analyze-health` route: the model's reply has every code-fence
    marker deleted and is trimmed, then parsed and checked; a reply that does
    not parse or lacks a required part is replaced by one fixed analysis, while
    a failure before the reply (unreadable request, unreachable model) is a
    server error. */
module AnalyzeHealth {
  import opened Wrappers
  import opened Text
  import opened AiJson

  const JsonFence := "```json"
  const Fence := "```"

  /** `reply.replace(/```json/g, '').replace(/```/g, '').trim()`. */
  function Clean(reply: string): (t: string)
    ensures |t| <= |reply|
    ensures t == [] || (!IsSpace(t[0]) && !IsSpace(t[|t| - 1]))
    ensures !Contains(t, Fence)
    ensures '`' !in reply ==> t == Trim(reply)
  {
    var u := RemoveAll(RemoveAll(reply, JsonFence), Fence);
    NoFenceLeft(RemoveAll(reply, JsonFence));
    TrimKeepsNoFence(u);
    BackquoteFree(reply);
    Trim(u)
  }

  /** Trimming cannot create a fence. */
  lemma TrimKeepsNoFence(u: string)
    requires !Contains(u, Fence)
    ensures !Contains(Trim(u), Fence)
  {
    var t := Trim(u);
    forall j | OccursAt(t, Fence, j)
      ensures false
    {
      OccursWithin(u, t, TrimOffset(u), j, Fence);
    }
  }

  /** Without backquotes there is no marker to delete. */
  lemma BackquoteFree(reply: string)
    ensures '`' !in reply ==> RemoveAll(RemoveAll(reply, JsonFence), Fence) == reply
  {
    if '`' !in reply {
      RemoveAllAppend(reply, [], JsonFence);
      RemoveAllAppend(reply, [], Fence);
      assert reply + [] == reply;
    }
  }

  /** A text with a backquote left at its head after the deletion of fences
      had one there before. */
  lemma FirstBackquote(y: string)
    requires RemoveAll(y, Fence) != [] && RemoveAll(y, Fence)[0] == '`'
    ensures y != [] && y[0] == '`'
  {
  }

  /** Two backquotes at the head after the deletion were two at the head before. */
  lemma TwoBackquotes(x: string)
    requires |RemoveAll(x, Fence)| >= 2 && RemoveAll(x, Fence)[0] == '`' && RemoveAll(x, Fence)[1] == '`'
    ensures |x| >= 2 && x[0] == '`' && x[1] == '`'
  {
    if !(|Fence| <= |x| && x[..3] == Fence) {
      assert RemoveAll(x, Fence) == [x[0]] + RemoveAll(x[1..], Fence);
      FirstBackquote(x[1..]);
    }
  }

  /** When a text does not start with a fence, none starts the result either. */
  lemma NoFenceAtHead(s: string)
    requires s != [] && !(|Fence| <= |s| && s[..3] == Fence)
    ensures !OccursAt(RemoveAll(s, Fence), Fence, 0)
  {
    var r := RemoveAll(s, Fence);
    var rest := RemoveAll(s[1..], Fence);
    RemoveAllStep(s, Fence);
    if OccursAt(r, Fence, 0) {
      assert r[..3] == Fence;
      assert r[0] == r[..3][0] && r[1] == r[..3][1] && r[2] == r[..3][2];
      assert r[0] == s[0] && r[1] == rest[0] && r[2] == rest[1];
      TwoBackquotes(s[1..]);
    }
  }

  /** Deleting every fence leaves no fence: each run of backquotes keeps only
      its length modulo three. */
  lemma {:induction false} NoFenceLeft(s: string)
    ensures !Contains(RemoveAll(s, Fence), Fence)
    decreases |s|
  {
    if |Fence| <= |s| && s[..3] == Fence {
      NoFenceLeft(s[3..]);
    } else if s != [] {
      var rest := RemoveAll(s[1..], Fence);
      var r := RemoveAll(s, Fence);
      assert r == [s[0]] + rest;
      NoFenceLeft(s[1..]);
      forall i | 0 <= i
        ensures !OccursAt(r, Fence, i)
      {
        if i == 0 {
          NoFenceAtHead(s);
        } else {
          OccursInTail(s[0], rest, Fence, i);
        }
      }
    }
  }

  /** Text with no backquote and no surrounding white space is left alone. */
  lemma CleanNoFence(s: string)
    requires '`' !in s
    requires s == [] || (!IsSpace(s[0]) && !IsSpace(s[|s| - 1]))
    ensures Clean(s) == s
  {
    RemoveAllAppend(s, [], JsonFence);
    RemoveAllAppend(s, [], Fence);
    assert s + [] == s;
    TrimUnchanged(s);
  }

  /** Deleting the opening marker from a fenced reply leaves the text inside
      followed by the closing marker. */
  lemma DropJsonFence(inner: string)
    requires '`' !in inner
    ensures RemoveAll(JsonFence + inner + Fence, JsonFence) == inner + Fence
  {
    assert JsonFence + inner + Fence == JsonFence + (inner + Fence);
    RemoveAllPrefix(JsonFence, inner + Fence);
    RemoveAllAppend(inner, Fence, JsonFence);
    assert RemoveAll(Fence, JsonFence) == Fence;
  }

  /** Deleting the closing marker then leaves the text inside. */
  lemma DropFence(inner: string)
    requires '`' !in inner
    ensures RemoveAll(inner + Fence, Fence) == inner
  {
    RemoveAllAppend(inner, Fence, Fence);
    RemoveAllPrefix(Fence, []);
    assert inner + [] == inner;
  }

  /** A reply wrapped in a ```` ```json ```` fence on lines of its own is cleaned
      back to the text inside. */
  lemma CleanFenced(obj: string)
    requires '`' !in obj
    requires obj != [] && !IsSpace(obj[0]) && !IsSpace(obj[|obj| - 1])
    ensures Clean("```json\n" + obj + "\n```") == obj
  {
    var inner := "\n" + obj + "\n";
    assert '`' !in inner;
    assert "```json\n" + obj + "\n```" == JsonFence + inner + Fence;
    DropJsonFence(inner);
    DropFence(inner);
    assert IsBlank("\n");
    TrimSurrounded("\n", obj, "\n");
  }

  /** The structure check: `riskLevel` truthy, `riskScore` of type number, and
      `recommendations` and `healthInsights` truthy. */
  predicate Accepted(j: Json)
    ensures Accepted(j) ==>
      j.JObj? && "riskLevel" in j.fields && "recommendations" in j.fields && "healthInsights" in j.fields
      && "riskScore" in j.fields && j.fields["riskScore"].JNum?
  {
    Truthy(Field(j, "riskLevel")) && Field(j, "riskScore").Some? && Field(j, "riskScore").value.JNum?
    && Truthy(Field(j, "recommendations")) && Truthy(Field(j, "healthInsights"))
  }

  /** An accepted result never has a string score, so the conversion of a
      string score that follows the check can never run. */
  lemma AcceptedScoreIsNumber(j: Json)
    requires Accepted(j)
    ensures !Field(j, "riskScore").value.JStr?
  {
  }

  const FallbackExercise := "Aim for at least 150 minutes of moderate-intensity exercise per week, such as brisk walking, swimming, or cycling."
  const FallbackNutrition := "Focus on a balanced diet with plenty of fruits, vegetables, lean proteins, and whole grains."
  const FallbackSleep := "Prioritize getting 7-8 hours of quality sleep each night by maintaining a consistent sleep schedule."
  const FallbackMental := "Practice stress management techniques such as mindfulness, deep breathing, or short meditation sessions."
  const FallbackStrengths := [
    "Awareness of health status through assessment",
    "Taking initiative to improve health outcomes",
    "Interest in personalized health recommendations"]
  const FallbackAreas := [
    "Regular health check-ups with healthcare professionals",
    "Consistent physical activity routine",
    "Balanced nutrition and adequate hydration"]
  const FallbackRisks := [
    "Lifestyle-related health conditions if habits aren't maintained",
    "Stress-related health issues without proper management",
    "Age-related health challenges without preventive care"]

  /** The fixed analysis returned for an unusable reply. */
  function FallbackAnalysis(): (a: Analysis)
    ensures a.riskLevel == "Moderate" && a.riskScore == 65.0
    ensures |a.healthInsights.strengths| == 3
    ensures |a.healthInsights.areasForImprovement| == 3
    ensures |a.healthInsights.longTermRisks| == 3
  {
    Analysis("Moderate", 65.0,
      Recommendations(FallbackExercise, FallbackNutrition, FallbackSleep, FallbackMental),
      Insights(FallbackStrengths, FallbackAreas, FallbackRisks))
  }

  /** The fallback passes the route's own check. */
  lemma FallbackAccepted()
    ensures Accepted(ToJson(FallbackAnalysis()))
  {
    var j := ToJson(FallbackAnalysis());
    assert Field(j, "riskLevel") == Some(JStr("Moderate"));
    assert Field(j, "riskScore") == Some(JNum(65.0));
  }

  datatype Request =
    | Unreadable(message: string)        // reading the body failed with this message
    | HealthData                         // the body was read

  datatype ModelReply =
    | CallFailed(message: string)        // the model call failed with this message
    | Reply(content: Option<string>)     // the reply text, possibly null

  /** The body of a server error. */
  function ServerError(message: string): (resp: Response)
    ensures resp.status == 500
  {
    Response(500, JObj(map["error" := JStr("Failed to analyze health data"), "details" := JStr(message)]))
  }

  /** The text parsed: the reply, or `"{}"` when it is null or empty. */
  function ReplyText(content: Option<string>): (t: string)
    ensures t != ""
    ensures content.Some? && content.value != "" ==> t == content.value
  {
    if content.Some? && content.value != "" then content.value else "{}"
  }

  /** The route. `parse` is `JSON.parse`, `None` where it throws. */
  function Handle(req: Request, reply: ModelReply, parse: string -> Option<Json>): (resp: Response)
    ensures req.Unreadable? ==> resp == ServerError(req.message)
    ensures req.HealthData? && reply.CallFailed? ==> resp == ServerError(reply.message)
    ensures req.HealthData? && reply.Reply? ==>
      var parsed := parse(Clean(ReplyText(reply.content)));
      resp.status == 200
      && (parsed.Some? && Accepted(parsed.value) ==> resp.body == parsed.value)
      && (parsed.None? || !Accepted(parsed.value) ==> resp.body == ToJson(FallbackAnalysis()))
    ensures resp.status == 200 ==> Accepted(resp.body)
  {
    match req
    case Unreadable(message) => ServerError(message)
    case HealthData =>
      match reply
      case CallFailed(message) => ServerError(message)
      case Reply(content) =>
        var parsed := parse(Clean(ReplyText(content)));
        if parsed.Some? && Accepted(parsed.value) then Response(200, parsed.value)
        else
          FallbackAccepted();
          Response(200, ToJson(FallbackAnalysis()))
  }

  /** A null or empty reply is parsed as `{}`, an object without the required
      parts, so the fixed fallback is returned. */
  lemma EmptyReplyGivesFallback(content: Option<string>, parse: string -> Option<Json>)
    requires content.None? || content.value == ""
    requires parse("{}") == Some(JObj(map[]))
    ensures Handle(HealthData, Reply(content), parse) == Response(200, ToJson(FallbackAnalysis()))
  {
    CleanNoFence("{}");
  }
}
