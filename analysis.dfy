/** The judgment analysis (`fetchRealAiAnalysis` with its fallback): the remote reply is
    coerced field by field into `state.aiAnalysis`, and any failure on the way falls back
    to the keyword heuristic.

    The request itself is not modelled: its reply is an injected value. Numbers are
    integers here; JavaScript's floating-point numbers are not modelled. */
module Analysis {
  import opened Wrappers
  import opened Retry
  import opened Fallback

  /** A value `JSON.parse` can produce. An object maps each key to its last value. */
  datatype Json =
    | JNull
    | JBool(b: bool)
    | JNumber(n: int)
    | JString(s: string)
    | JArray(items: seq<Json>)
    | JObject(fields: map<string, Json>)

  /** What the request gives: a rejection, or a status with the parsed analysis text
      (`JSON.parse(data.candidates[0].content.parts[0].text)`), `None` when reading the
      body, following that path, or parsing throws. */
  datatype Reply = Rejected | Response(status: nat, payload: Option<Json>)

  /** `state.aiAnalysis`. The remote reasons and tags are whatever JSON values the reply
      holds; the heuristic's are strings. */
  datatype Analysis = Analysis(
    emotionScore: int, emotionReason: Json,
    legalScore: int, legalReason: Json,
    biases: seq<Json>)

  const DefaultScore: int := 50
  const MissingReason: string := "상세 분석을 수행할 수 없습니다."
  const MissingBiases: seq<Json> := [JString("분석 불가")]

  /** `resultJson.key`: the field of an object, `undefined` (`None`) for any other
      non-null value. Reading a field of `null` throws; that case is handled by
      `Coerce`. */
  function Field(v: Json, key: string): Option<Json> {
    if v.JObject? && key in v.fields then Some(v.fields[key]) else None
  }

  /** JavaScript truthiness of a possibly `undefined` value. */
  predicate Truthy(v: Option<Json>) {
    match v
    case None => false
    case Some(j) =>
      match j
      case JNull => false
      case JBool(b) => b
      case JNumber(n) => n != 0
      case JString(s) => s != ""
      case _ => true
  }

  /** `typeof x === 'number' ? x : 50`. */
  function NumberOr50(v: Option<Json>): int {
    if v.Some? && v.value.JNumber? then v.value.n else DefaultScore
  }

  /** `x || "상세 분석을 수행할 수 없습니다."`: the stored reason is never falsy. */
  function ReasonOr(v: Option<Json>): (r: Json)
    ensures Truthy(Some(r))
  {
    if Truthy(v) then v.value else JString(MissingReason)
  }

  /** `Array.isArray(x) ? x : ["분석 불가"]`: an empty tag list can only come from an
      empty array in the reply. */
  function BiasesOr(v: Option<Json>): (r: seq<Json>)
    ensures r == [] ==> v == Some(JArray([]))
  {
    if v.Some? && v.value.JArray? then v.value.items else MissingBiases
  }

  /** The coercion of the parsed reply into `state.aiAnalysis`; `None` when the reply
      is `null`, whose fields cannot be read. */
  function Coerce(v: Json): (r: Option<Analysis>)
    ensures r.None? <==> v == JNull
  {
    if v == JNull then None
    else Some(Analysis(
      NumberOr50(Field(v, "emotionScore")), ReasonOr(Field(v, "emotionReason")),
      NumberOr50(Field(v, "legalScore")), ReasonOr(Field(v, "legalReason")),
      BiasesOr(Field(v, "biases"))))
  }

  /** A value that is not an object has no fields: every field takes its default. */
  lemma NonObjectTakesDefaults(v: Json)
    requires !v.JObject? && v != JNull
    ensures Coerce(v) == Some(Analysis(DefaultScore, JString(MissingReason),
                                       DefaultScore, JString(MissingReason), MissingBiases))
  {
  }

  /** A reply object whose five fields are present and well typed is stored as it is:
      both scores, both reasons and the tag array are the remote values. */
  lemma WellTypedReplyKept(fields: map<string, Json>)
    requires "emotionScore" in fields && fields["emotionScore"].JNumber?
    requires "legalScore" in fields && fields["legalScore"].JNumber?
    requires "emotionReason" in fields && Truthy(Some(fields["emotionReason"]))
    requires "legalReason" in fields && Truthy(Some(fields["legalReason"]))
    requires "biases" in fields && fields["biases"].JArray?
    ensures Coerce(JObject(fields)) == Some(Analysis(
      fields["emotionScore"].n, fields["emotionReason"],
      fields["legalScore"].n, fields["legalReason"],
      fields["biases"].items))
  {
  }

  /** Each field of a reply object that is missing or of the wrong type takes its own
      default, whatever the other fields hold. */
  lemma MistypedFieldsTakeDefaults(fields: map<string, Json>)
    ensures var a := Coerce(JObject(fields)).value;
      && (("emotionScore" !in fields || !fields["emotionScore"].JNumber?) ==> a.emotionScore == DefaultScore)
      && (("legalScore" !in fields || !fields["legalScore"].JNumber?) ==> a.legalScore == DefaultScore)
      && (("emotionReason" !in fields || !Truthy(Some(fields["emotionReason"])))
            ==> a.emotionReason == JString(MissingReason))
      && (("legalReason" !in fields || !Truthy(Some(fields["legalReason"])))
            ==> a.legalReason == JString(MissingReason))
      && (("biases" !in fields || !fields["biases"].JArray?) ==> a.biases == MissingBiases)
  {
  }

  /** The coercion does not clamp: a remote score outside 0..100 is kept as it is, and an
      empty tag array stays empty. */
  lemma CoercionKeepsRemoteValues(score: int)
    ensures var v := JObject(map["emotionScore" := JNumber(score), "biases" := JArray([])]);
      Coerce(v).Some? && Coerce(v).value.emotionScore == score && Coerce(v).value.biases == []
  {
    var v := JObject(map["emotionScore" := JNumber(score), "biases" := JArray([])]);
    assert Field(v, "emotionScore") == Some(JNumber(score));
    assert Field(v, "biases") == Some(JArray([]));
  }

  /** The heuristic's result in the shape of `state.aiAnalysis`. */
  function FromMock(m: AnalysisResult): (a: Analysis)
    ensures |a.biases| == |m.biases|
  {
    Analysis(m.emotionScore, JString(m.emotionReason), m.legalScore, JString(m.legalReason),
      seq(|m.biases|, i requires 0 <= i < |m.biases| => JString(m.biases[i])))
  }

  /** The analysis stored for a reply: the coerced reply when the status is ok, the
      payload was read and it is not `null`; the heuristic's result otherwise. */
  function AnalysisFor(reply: Reply, text: string, sentence: string, title: string, rng: Randomness): Analysis {
    if reply.Response? && IsOk(reply.status) && reply.payload.Some? && Coerce(reply.payload.value).Some?
    then Coerce(reply.payload.value).value
    else FromMock(MockAnalysis(text, sentence, title, rng))
  }

  /** A rejected request, a non-ok status, an unreadable payload or a `null` payload all
      store the heuristic's result, whose tag list is never empty. */
  lemma FailureFallsBack(reply: Reply, text: string, sentence: string, title: string, rng: Randomness)
    requires reply.Rejected? || !IsOk(reply.status) || reply.payload.None? || reply.payload == Some(JNull)
    ensures AnalysisFor(reply, text, sentence, title, rng) == FromMock(MockAnalysis(text, sentence, title, rng))
    ensures AnalysisFor(reply, text, sentence, title, rng).biases != []
  {
    MockBiasesDistinct(text, sentence, title, rng);
  }

  /** The application state the analysis writes. */
  class AnalysisState {
    /** `state.aiAnalysis`. */
    var aiAnalysis: Option<Analysis>

    constructor ()
      ensures aiAnalysis == None
    {
      aiAnalysis := None;
    }

    /** `fetchRealAiAnalysis(text)` with the fallback around it: without a key it returns
        at once and leaves the previous analysis in place; otherwise it stores the
        coerced reply, or the heuristic's result when anything failed. */
    method FetchRealAiAnalysis(apiKey: string, reply: Reply, text: string, sentence: string,
                               title: string, rng: Randomness)
      modifies this
      ensures apiKey == "" ==> aiAnalysis == old(aiAnalysis)
      ensures apiKey != "" ==> aiAnalysis == Some(AnalysisFor(reply, text, sentence, title, rng))
    {
      if |apiKey| == 0 {
        return;
      }
      var coerced: Option<Analysis> := None;
      if reply.Response? && IsOk(reply.status) && reply.payload.Some? {
        coerced := Coerce(reply.payload.value);
      }
      if coerced.Some? {
        aiAnalysis := coerced;
      } else {
        var mock := GenerateMockAiData(text, sentence, title, rng);
        aiAnalysis := Some(FromMock(mock));
      }
    }
  }
}
