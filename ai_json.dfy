/** JSON values as the analysis routes see them after `JSON.parse`, JavaScript
    truthiness of a looked-up property, and the analysis object both routes
    answer with. */
module AiJson {
  import opened Wrappers

  datatype Json =
    | JNull
    | JBool(b: bool)
    | JNum(n: real)
    | JStr(s: string)
    | JArr(items: seq<Json>)
    | JObj(fields: map<string, Json>)

  /** `value.key`: present only on an object that has the key; anything else
      reads as `undefined`. */
  function Field(value: Json, key: string): (r: Option<Json>)
    ensures r.Some? <==> value.JObj? && key in value.fields
    ensures r.Some? ==> r.value == value.fields[key]
  {
    if value.JObj? && key in value.fields then Some(value.fields[key]) else None
  }

  /** `!!value.key`: `undefined`, `null`, `false`, `0` and `""` are falsy;
      every array and object is truthy. */
  predicate Truthy(v: Option<Json>) {
    match v
    case None => false
    case Some(JNull) => false
    case Some(JBool(b)) => b
    case Some(JNum(n)) => n != 0.0
    case Some(JStr(s)) => s != ""
    case Some(JArr(_)) => true
    case Some(JObj(_)) => true
  }

  /** The four recommendation texts of an analysis. */
  datatype Recommendations = Recommendations(exercise: string, nutrition: string, sleep: string, mentalHealth: string)

  /** The three lists of insights of an analysis. */
  datatype Insights = Insights(strengths: seq<string>, areasForImprovement: seq<string>, longTermRisks: seq<string>)

  /** A health analysis as the routes build it themselves. */
  datatype Analysis = Analysis(riskLevel: string, riskScore: real, recommendations: Recommendations, healthInsights: Insights)

  function Strings(xs: seq<string>): (r: Json)
    ensures r.JArr? && |r.items| == |xs|
  {
    JArr(seq(|xs|, i requires 0 <= i < |xs| => JStr(xs[i])))
  }

  /** The JSON object sent for an analysis. */
  function ToJson(a: Analysis): (j: Json)
    ensures j.JObj? && j.fields.Keys == {"riskLevel", "riskScore", "recommendations", "healthInsights"}
    ensures j.fields["riskLevel"] == JStr(a.riskLevel)
    ensures j.fields["riskScore"] == JNum(a.riskScore)
    ensures j.fields["recommendations"].JObj? && j.fields["healthInsights"].JObj?
  {
    var r := a.recommendations;
    var h := a.healthInsights;
    JObj(map[
      "riskLevel" := JStr(a.riskLevel),
      "riskScore" := JNum(a.riskScore),
      "recommendations" := JObj(map[
        "exercise" := JStr(r.exercise), "nutrition" := JStr(r.nutrition),
        "sleep" := JStr(r.sleep), "mentalHealth" := JStr(r.mentalHealth)]),
      "healthInsights" := JObj(map[
        "strengths" := Strings(h.strengths),
        "areasForImprovement" := Strings(h.areasForImprovement),
        "longTermRisks" := Strings(h.longTermRisks)])])
  }

  /** A route's answer: an HTTP status and a JSON body. */
  datatype Response = Response(status: int, body: Json)
}
