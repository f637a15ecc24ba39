/** The `/api` endpoint of the web server: request validation, the call of
    `answer_structured` with a time limit, and normalisation of its result. */
module Server {
  import opened Wrappers
  import opened Text
  import opened VectorSearch
  import opened Orchestrator

  /** A JSON value as Python sees it after decoding (integers and floats kept apart). */
  datatype JValue =
    | JNull
    | JBool(b: bool)
    | JInt(i: int)
    | JFloat(r: real)
    | JStr(s: string)
    | JArr(items: seq<JValue>)
    | JObj(fields: map<string, JValue>)

  /** Python truthiness of a decoded value. */
  predicate Truthy(v: JValue) {
    match v
    case JNull => false
    case JBool(b) => b
    case JInt(i) => i != 0
    case JFloat(r) => r != 0.0
    case JStr(s) => s != ""
    case JArr(items) => items != []
    case JObj(fields) => fields != map[]
  }

  /** The Python type name of a decoded value, as it appears in error messages. */
  function TypeName(v: JValue): string {
    match v
    case JNull => "NoneType"
    case JBool(_) => "bool"
    case JInt(_) => "int"
    case JFloat(_) => "float"
    case JStr(_) => "str"
    case JArr(_) => "list"
    case JObj(_) => "dict"
  }

  /** `d.get(key, default)`. */
  function Get(fields: map<string, JValue>, key: string, default: JValue): (v: JValue)
    ensures key in fields ==> v == fields[key]
    ensures key !in fields ==> v == default
  {
    if key in fields then fields[key] else default
  }

  /** The request body: decoded JSON, or a body that could not be read, either as a JSON
      decoding error or as some other exception. */
  datatype Body = Json(value: JValue) | Unreadable(decodeError: bool, msg: string)

  /** An HTTP response: status code and JSON body. */
  datatype Response = Response(status: nat, body: JValue)

  /** How waiting for `answer_structured` ended. */
  datatype Completion = Completed(out: JValue) | TimedOut | Raised(msg: string)

  /** The arguments `answer_structured` is submitted with. */
  datatype Submission = Submission(question: string, topK: int, verbose: bool)

  /** A response and the submission made while producing it, if any. */
  datatype ApiRun = ApiRun(response: Response, submitted: Option<Submission>)

  const GenericAnswer: string :=
    "I'm sorry, I couldn't fetch a detailed answer right now. Please try again later or re‑phrase your question."

  /** `fallback_response(question)`: the fixed record sent when the model times out. */
  function FallbackResponse(question: string): (r: JValue)
    ensures r.JObj? && r.fields.Keys == {"success", "answer", "short", "steps", "follow_up"}
    ensures r.fields["success"] == JBool(false)
    ensures r.fields["answer"] == r.fields["short"] == JStr(GenericAnswer)
    ensures r.fields["steps"] == JArr([]) && r.fields["follow_up"] == JNull
  {
    JObj(map[
      "success" := JBool(false),
      "answer" := JStr(GenericAnswer),
      "short" := JStr(GenericAnswer),
      "steps" := JArr([]),
      "follow_up" := JNull])
  }

  /** The fallback record does not depend on the question. */
  lemma {:induction false} FallbackIgnoresQuestion(q1: string, q2: string)
    ensures FallbackResponse(q1) == FallbackResponse(q2)
  {
  }

  /** A one-key error body: unlike the model-error record, it carries no `success` field. */
  function ErrorBody(msg: string): (r: JValue)
    ensures r.JObj? && r.fields.Keys == {"error"} && r.fields["error"] == JStr(msg)
  {
    JObj(map["error" := JStr(msg)])
  }

  /** `int(x)` toward zero for a float. */
  function Truncate(r: real): (n: int)
    ensures r >= 0.0 ==> n as real <= r < n as real + 1.0
    ensures r < 0.0 ==> n as real - 1.0 < r <= n as real
  {
    if r >= 0.0 then r.Floor else -((-r).Floor)
  }

  /** `int(s)` for a string: optional whitespace around an optional sign and decimal
      digits. */
  function ParseInt(s: string): (r: Outcome<int>)
    ensures r.Ok? ==> Strip(s) != []
    // only a sign or a digit opens the trimmed text, and digits follow
    ensures r.Ok? ==> var t := Strip(s);
      && (IsDigit(t[0]) || t[0] == '+' || t[0] == '-')
      && (forall i :: 1 <= i < |t| ==> IsDigit(t[i]))
      && (t[0] != '-' ==> r.value >= 0)
    // a sign on its own is not a number
    ensures r.Ok? ==> var t := Strip(s); (t[0] == '+' || t[0] == '-') ==> |t| >= 2
  {
    match SignedValue(Strip(s))
    case Some(v) => Ok(v)
    case None => Fail("invalid literal for int() with base 10: '" + s + "'")
  }

  /** The value of already-stripped text: an optional sign, then one or more digits. */
  function SignedValue(t: string): Option<int> {
    var neg := |t| > 0 && t[0] == '-';
    var digits := if |t| > 0 && (t[0] == '-' || t[0] == '+') then t[1..] else t;
    if digits != [] && AllDigits(digits) then
      var v: int := DecimalValue(digits);
      Some(if neg then -v else v)
    else None
  }

  /** The sign factor of an optional sign. */
  function SignOf(sign: string): int {
    if sign == "-" then -1 else 1
  }

  /** Decimal text of a number reads back as that number. */
  lemma {:induction false} ParseIntRoundTrip(n: nat)
    ensures ParseInt(NatToString(n)) == Ok(n)
  {
    var s := NatToString(n);
    ParseIntSigned("", "", s, "");
    assert "" + "" + s + "" == s;
    DecimalRoundTrip(n);
  }

  /** `int()` accepts a signed run of decimal digits between whitespace, leading zeros
      included, and reads its value. */
  lemma {:induction false} ParseIntSigned(ws1: string, sign: string, ds: string, ws2: string)
    requires AllSpace(ws1) && AllSpace(ws2)
    requires sign == "" || sign == "+" || sign == "-"
    requires ds != [] && AllDigits(ds)
    ensures ParseInt(ws1 + sign + ds + ws2) == Ok(SignOf(sign) * DecimalValue(ds))
  {
    StripSigned(ws1, sign, ds, ws2);
    SignedValueOf(sign, ds);
  }

  /** Leading zeros do not change the value of a run of digits, so `int("007") == 7`. */
  lemma {:induction false} DecimalLeadingZero(ds: string)
    requires AllDigits(ds)
    ensures AllDigits("0" + ds) && DecimalValue("0" + ds) == DecimalValue(ds)
    decreases |ds|
  {
    var z := "0" + ds;
    assert AllDigits(z) by {
      forall i | 0 <= i < |z| ensures IsDigit(z[i]) {
        if i > 0 { assert z[i] == ds[i - 1]; }
      }
    }
    if ds != [] {
      var init := ds[..|ds| - 1];
      assert AllDigits(init) by {
        forall i | 0 <= i < |init| ensures IsDigit(init[i]) { assert init[i] == ds[i]; }
      }
      DecimalLeadingZero(init);
      assert z[..|z| - 1] == "0" + init;
      assert z[|z| - 1] == ds[|ds| - 1];
    }
  }

  /** Stripping a padded signed numeral leaves exactly the numeral. */
  lemma {:induction false} StripSigned(ws1: string, sign: string, ds: string, ws2: string)
    requires AllSpace(ws1) && AllSpace(ws2)
    requires sign == "" || sign == "+" || sign == "-"
    requires ds != [] && AllDigits(ds)
    ensures Strip(ws1 + sign + ds + ws2) == sign + ds
  {
    SignedTrimmed(sign, ds);
    StripTrimmed(ws1, sign + ds, ws2);
    Regroup(ws1, sign, ds, ws2);
  }

  /** Regrouping a four-part concatenation around its middle two parts. */
  lemma Regroup(a: string, b: string, c: string, d: string)
    ensures a + b + c + d == a + (b + c) + d
  {
  }

  /** A signed decimal numeral has no whitespace at either end. */
  lemma {:induction false} SignedTrimmed(sign: string, ds: string)
    requires sign == "" || sign == "+" || sign == "-"
    requires ds != [] && AllDigits(ds)
    ensures Trimmed(sign + ds)
  {
    var t := sign + ds;
    assert IsDigit(ds[0]) && IsDigit(ds[|ds| - 1]);
    assert t[|t| - 1] == ds[|ds| - 1];
    if sign == "" { assert t[0] == ds[0]; } else { assert t[0] == sign[0]; }
  }

  /** A signed decimal numeral has the value it spells. */
  lemma {:induction false} SignedValueOf(sign: string, ds: string)
    requires sign == "" || sign == "+" || sign == "-"
    requires ds != [] && AllDigits(ds)
    ensures SignedValue(sign + ds) == Some(SignOf(sign) * DecimalValue(ds))
  {
    var t := sign + ds;
    assert IsDigit(ds[0]);
    var digits := if |t| > 0 && (t[0] == '-' || t[0] == '+') then t[1..] else t;
    if sign == "" {
      assert t == ds && digits == ds;
    } else {
      assert t[0] == sign[0] && t[1..] == ds && digits == ds;
    }
  }

  /** A character other than a digit between two numbers makes `int()` fail. */
  lemma {:induction false} ParseIntRejectsInnerChar(m: nat, c: char, n: nat)
    requires !IsDigit(c)
    ensures ParseInt(NatToString(m) + [c] + NatToString(n)).Fail?
  {
    var a, b := NatToString(m), NatToString(n);
    var s := a + [c] + b;
    assert IsDigit(a[0]) && IsDigit(b[|b| - 1]);
    assert s[0] == a[0] && s[|s| - 1] == b[|b| - 1];
    StripUnique(s, s, 0);
    assert s[|a|] == c;
  }

  /** `int(value)` for a decoded JSON value. */
  function ToInt(v: JValue): (r: Outcome<int>)
    ensures v.JInt? ==> r == Ok(v.i)
    ensures v.JBool? ==> r == Ok(if v.b then 1 else 0)
    ensures v.JFloat? ==> r == Ok(Truncate(v.r))
    ensures v.JStr? ==> r == ParseInt(v.s)
    ensures (v.JNull? || v.JArr? || v.JObj?) ==> r.Fail?
  {
    match v
    case JInt(i) => Ok(i)
    case JBool(b) => Ok(if b then 1 else 0)
    case JFloat(x) => Ok(Truncate(x))
    case JStr(s) => ParseInt(s)
    case _ => Fail("int() argument must be a string, a bytes-like object or a real number, not '" + TypeName(v) + "'")
  }

  /** `data.get('question', '').strip()`: raises when the body is not an object or the
      question is not a string. */
  function QuestionOf(data: JValue): (r: Outcome<string>)
    ensures r.Ok? <==> data.JObj? && Get(data.fields, "question", JStr("")).JStr?
    ensures r.Ok? ==> r.value == Strip(Get(data.fields, "question", JStr("")).s)
  {
    if !data.JObj? then Fail("'" + TypeName(data) + "' object has no attribute 'get'")
    else
      var q := Get(data.fields, "question", JStr(""));
      if q.JStr? then Ok(Strip(q.s)) else Fail("'" + TypeName(q) + "' object has no attribute 'strip'")
  }

  /** The normalisation of a completed result: a failure without an `error` key gets one
      (the answer when it is truthy, else a fixed text), and `retrieved` is removed. */
  function NormalizeOutput(out: JValue): (r: JValue)
    ensures !out.JObj? ==> r == out
    ensures out.JObj? ==> r.JObj? && "retrieved" !in r.fields
    // every other key is kept with its value, and only `error` may be added
    ensures out.JObj? ==> forall k :: k in out.fields && k != "retrieved" ==> k in r.fields
    ensures out.JObj? ==> forall k :: k in out.fields && k != "retrieved" && k != "error" ==> r.fields[k] == out.fields[k]
    ensures out.JObj? ==> forall k :: k in r.fields ==> k in out.fields || k == "error"
    // an existing error is never overwritten
    ensures out.JObj? && "error" in out.fields ==> r.fields["error"] == out.fields["error"]
    // an error is added exactly for a falsy `success`, a missing one counting as true
    ensures out.JObj? && "error" !in out.fields ==>
      ("error" in r.fields <==> !Truthy(Get(out.fields, "success", JBool(true))))
    ensures out.JObj? && "error" !in out.fields && "error" in r.fields ==>
      r.fields["error"] == (if Truthy(Get(out.fields, "answer", JNull)) then out.fields["answer"] else JStr("Unknown error"))
  {
    if !out.JObj? then out
    else
      var f := out.fields;
      var withError :=
        if !Truthy(Get(f, "success", JBool(true))) && "error" !in f then
          var ans := Get(f, "answer", JNull);
          f["error" := if Truthy(ans) then ans else JStr("Unknown error")]
        else f;
      var withoutRetrieved := if "retrieved" in withError then withError - {"retrieved"} else withError;
      JObj(withoutRetrieved)
  }

  /** Normalising twice is normalising once. */
  lemma {:induction false} NormalizeIdempotent(out: JValue)
    ensures NormalizeOutput(NormalizeOutput(out)) == NormalizeOutput(out)
  {
    if out.JObj? {
      var r := NormalizeOutput(out);
      var rr := NormalizeOutput(r);
      assert rr.fields.Keys == r.fields.Keys;
    }
  }

  /** `api()` for a POST request; `run` stands for `answer_structured` run on the worker
      thread with the 15-second limit. */
  function Api(body: Body, run: Submission -> Completion): (r: ApiRun)
    // a submission is made only for a non-empty question, with verbose output off
    ensures r.submitted.Some? ==> r.submitted.value.question != [] && !r.submitted.value.verbose
    ensures r.submitted.Some? ==> body.Json? && QuestionOf(body.value) == Ok(r.submitted.value.question)
    ensures r.submitted.Some? ==> ToInt(Get(body.value.fields, "top_k", JInt(DefaultTopK))) == Ok(r.submitted.value.topK)
    ensures r.response.status in {200, 400, 500}
    // a non-empty question whose `top_k` converts is always submitted
    ensures (&& body.Json? && QuestionOf(body.value).Ok? && QuestionOf(body.value).value != []
             && ToInt(Get(body.value.fields, "top_k", JInt(DefaultTopK))).Ok?) ==>
      r.submitted == Some(Submission(QuestionOf(body.value).value,
                                     ToInt(Get(body.value.fields, "top_k", JInt(DefaultTopK))).value, false))
    // without a submission the request is refused with 400 or 500
    ensures r.submitted.None? ==> r.response.status != 200
    // how the wait ends decides the response
    ensures r.submitted.Some? && run(r.submitted.value).Completed? ==>
      r.response == Response(200, NormalizeOutput(run(r.submitted.value).out))
    ensures r.submitted.Some? && run(r.submitted.value).TimedOut? ==>
      r.response == Response(200, FallbackResponse(r.submitted.value.question))
    ensures r.submitted.Some? && run(r.submitted.value).Raised? ==>
      r.response == Response(500, JObj(map["success" := JBool(false),
                                           "error" := JStr("Server error: " + run(r.submitted.value).msg)]))
  {
    match body
    case Unreadable(decodeError, msg) =>
      if decodeError then ApiRun(Response(400, ErrorBody("Invalid JSON in request")), None)
      else ApiRun(Response(500, ErrorBody("Server error: " + msg)), None)
    case Json(data) =>
      match QuestionOf(data)
      case Fail(msg) => ApiRun(Response(500, ErrorBody("Server error: " + msg)), None)
      case Ok(question) =>
        if question == [] then ApiRun(Response(400, ErrorBody("Question is required")), None)
        else
          match ToInt(Get(data.fields, "top_k", JInt(DefaultTopK)))
          case Fail(msg) => ApiRun(Response(500, ErrorBody("Server error: " + msg)), None)
          case Ok(topK) =>
            var sub := Submission(question, topK, false);
            var response :=
              match run(sub)
              case Completed(out) => Response(200, NormalizeOutput(out))
              case TimedOut => Response(200, FallbackResponse(question))
              case Raised(msg) => Response(500, JObj(map["success" := JBool(false), "error" := JStr("Server error: " + msg)]));
            ApiRun(response, Some(sub))
  }

  /** A question that is empty after trimming is refused with status 400 and nothing is
      submitted. */
  lemma {:induction false} EmptyQuestionRejected(fields: map<string, JValue>, q: string, run: Submission -> Completion)
    requires Get(fields, "question", JStr("")) == JStr(q) && AllSpace(q)
    ensures Api(Json(JObj(fields)), run) == ApiRun(Response(400, ErrorBody("Question is required")), None)
  {
    StripEmpty(q);
  }

  /** A non-blank question is submitted trimmed, with whatever limit `int(top_k)` gives. */
  lemma {:induction false} TopKSubmitted(fields: map<string, JValue>, q: string, k: int,
                                         run: Submission -> Completion)
    requires "question" in fields && fields["question"] == JStr(q) && !AllSpace(q)
    requires ToInt(Get(fields, "top_k", JInt(DefaultTopK))) == Ok(k)
    ensures Api(Json(JObj(fields)), run).submitted == Some(Submission(Strip(q), k, false))
  {
    StripEmpty(q);
  }

  /** A request without `top_k` submits the trimmed question with a limit of 5. */
  lemma {:induction false} DefaultTopKSubmitted(fields: map<string, JValue>, q: string, run: Submission -> Completion)
    requires "question" in fields && fields["question"] == JStr(q) && !AllSpace(q)
    requires "top_k" !in fields
    ensures Api(Json(JObj(fields)), run).submitted == Some(Submission(Strip(q), 5, false))
  {
    TopKSubmitted(fields, q, DefaultTopK, run);
  }

  /** A `top_k` sent as text, such as `" -3 "`, is read as the signed number it spells. */
  lemma {:induction false} TextTopKSubmitted(fields: map<string, JValue>, q: string,
                                             ws1: string, sign: string, ds: string, ws2: string,
                                             run: Submission -> Completion)
    requires "question" in fields && fields["question"] == JStr(q) && !AllSpace(q)
    requires AllSpace(ws1) && AllSpace(ws2) && (sign == "" || sign == "+" || sign == "-")
    requires ds != [] && AllDigits(ds)
    requires "top_k" in fields && fields["top_k"] == JStr(ws1 + sign + ds + ws2)
    ensures Api(Json(JObj(fields)), run).submitted
         == Some(Submission(Strip(q), SignOf(sign) * DecimalValue(ds), false))
  {
    ParseIntSigned(ws1, sign, ds, ws2);
    TopKSubmitted(fields, q, SignOf(sign) * DecimalValue(ds), run);
  }

  /** A `top_k` that `int()` rejects ends the request with status 500 before anything is
      submitted. */
  lemma {:induction false} BadTopKRejected(fields: map<string, JValue>, q: string, run: Submission -> Completion)
    requires "question" in fields && fields["question"] == JStr(q) && !AllSpace(q)
    requires ToInt(Get(fields, "top_k", JInt(DefaultTopK))).Fail?
    ensures Api(Json(JObj(fields)), run).response.status == 500
    ensures Api(Json(JObj(fields)), run).submitted.None?
  {
    StripEmpty(q);
  }

  /** When the model times out the fallback record is sent with status 200, whatever
      `top_k` the request carried. */
  lemma {:induction false} TimeoutSendsFallback(fields: map<string, JValue>, q: string, k: int,
                                                run: Submission -> Completion)
    requires "question" in fields && fields["question"] == JStr(q) && !AllSpace(q)
    requires ToInt(Get(fields, "top_k", JInt(DefaultTopK))) == Ok(k)
    requires run(Submission(Strip(q), k, false)) == TimedOut
    ensures Api(Json(JObj(fields)), run).response == Response(200, FallbackResponse(Strip(q)))
  {
    StripEmpty(q);
  }

  /** A retrieved record as `answer_structured` puts it in its result: exactly the keys
      `id`, `text` and `score`, a missing value becoming `null`. */
  function ChunkJson(c: Chunk): (r: JValue)
    ensures r.JObj? && r.fields.Keys == {"id", "text", "score"}
    ensures r.fields["id"] == (if c.id.Some? then JStr(c.id.value) else JNull)
    ensures r.fields["text"] == (if c.text.Some? then JStr(c.text.value) else JNull)
    ensures r.fields["score"] == (if c.score.Some? then JFloat(c.score.value) else JNull)
  {
    JObj(map[
      "id" := if c.id.Some? then JStr(c.id.value) else JNull,
      "text" := if c.text.Some? then JStr(c.text.value) else JNull,
      "score" := if c.score.Some? then JFloat(c.score.value) else JNull])
  }

  /** The dictionary `answer_structured` returns: exactly four keys, with one record per
      retrieved chunk, in order. */
  function ResultJson(r: AnswerResult): (j: JValue)
    ensures j.JObj? && j.fields.Keys == {"success", "question", "answer", "retrieved"}
    ensures j.fields["success"] == JBool(r.success)
    ensures j.fields["question"] == JStr(r.question) && j.fields["answer"] == JStr(r.answer)
    ensures j.fields["retrieved"].JArr? && |j.fields["retrieved"].items| == |r.retrieved|
    ensures forall i :: 0 <= i < |r.retrieved| ==> j.fields["retrieved"].items[i] == ChunkJson(r.retrieved[i])
  {
    JObj(map[
      "success" := JBool(r.success),
      "question" := JStr(r.question),
      "answer" := JStr(r.answer),
      "retrieved" := JArr(seq(|r.retrieved|, i requires 0 <= i < |r.retrieved| => ChunkJson(r.retrieved[i])))])
  }

  /** The normalised form of a result record: success, question and answer, plus, for a
      failure with a non-empty answer, an `error` equal to that answer; never the chunks. */
  lemma {:induction false} NormalizedResult(t: AnswerResult)
    requires !t.success ==> t.answer != []
    ensures var r := NormalizeOutput(ResultJson(t));
      && r.JObj? && "retrieved" !in r.fields
      && r.fields.Keys == (if t.success then {"success", "question", "answer"} else {"success", "question", "answer", "error"})
      && r.fields["answer"] == JStr(t.answer) && r.fields["success"] == JBool(t.success)
      && (!t.success ==> r.fields["error"] == JStr(t.answer))
  {
    var f := ResultJson(t).fields;
    var base := map["success" := JBool(t.success), "question" := JStr(t.question), "answer" := JStr(t.answer)];
    if t.success {
      assert f - {"retrieved"} == base;
    } else {
      assert Truthy(Get(f, "answer", JNull));
      assert f["error" := JStr(t.answer)] - {"retrieved"} == base["error" := JStr(t.answer)];
    }
  }

  /** What the client receives for a completed turn: the failure of a turn always comes
      with an `error` equal to its `"Error: …"` answer, and the chunks are never sent. */
  lemma {:induction false} ServedTurn(env: Env, loader: Embedding.LoaderState, memory: Option<Turn>,
                                      question: string, topK: int, pick: nat)
    requires pick < |GreetingReplies|
    ensures var t := Respond(env, loader, memory, question, topK, pick).result;
      var r := NormalizeOutput(ResultJson(t));
      && r.JObj? && "retrieved" !in r.fields
      && (!t.success ==> "error" in r.fields && r.fields["error"] == JStr(t.answer))
  {
    var t := Respond(env, loader, memory, question, topK, pick).result;
    NormalizedResult(t);
  }
}
