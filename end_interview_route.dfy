/** The Next.js `/api/end-interviews` route: the same checks and
    transcription as `/api/interview`, then a call to the Flask
    `/end-interview` endpoint whose multipart reply is turned into
    `{outro, score, audio}`. Its own remembered question and model answer
    start empty and nothing in the route ever sets them. */
module EndInterviewsRoute {
  import opened Wrappers
  import opened JsonValue
  import opened Http
  import opened Multipart
  import opened JsText
  import Backend
  import InterviewRoute
  import JobDescription

  /** The form sent to `/end-interview`. */
  function OutboundForm(jobDescription: string, answer: string, question: Json, modelAnswer: Json): (f: Backend.Form)
    ensures f.Keys == {"job_description", "question", "model_answer", "human_answer"}
    ensures f["human_answer"] == answer && f["job_description"] == jobDescription
    ensures f["question"] == ToJsString(question) && f["model_answer"] == ToJsString(modelAnswer)
  {
    map["job_description" := jobDescription, "question" := ToJsString(question),
        "model_answer" := ToJsString(modelAnswer), "human_answer" := answer]
  }

  /** `parseFloat(v)`: a number is itself; any other value is read from the
      start of its text by `numberPrefix`, which gives a number or `null`
      (the JSON form of `NaN`). */
  function ParseFloat(v: Json, numberPrefix: string -> Json): Json
  {
    if v.JNum? then v else numberPrefix(ToJsString(v))
  }

  /** The loop's locals. */
  datatype Tally = Tally(outro: Json, score: Json, audio: Option<string>)

  const Start: Tally := Tally(JStr(""), JNull, None)

  /** One part: a JSON part sets the outro ("" for a missing or falsy one)
      and the score (`null` for a missing or falsy one); an audio part with
      data sets the audio. */
  function Step(t: Tally, part: string, parse: string -> Option<Json>, numberPrefix: string -> Json): (r: Result<Tally, Thrown>)
    ensures r.Failure? ==> Includes(part, "application/json")
    ensures r.Success? && !Includes(part, "application/json") ==> r.value.outro == t.outro && r.value.score == t.score
  {
    match Classify(part)
    case JsonKind(text) =>
      if text.None? then Success(t)
      else
        var v := parse(text.value);
        if v.None? then Failure(InvalidJson)
        else if v.value == JNull then Failure(Thrown.NullProperty("outro"))
        else
          var score := Member(v.value, "score").value;
          Success(t.(outro := Or(Member(v.value, "outro").value, JStr("")),
                     score := if Present(score) then ParseFloat(score.value, numberPrefix) else JNull))
    case AudioKind(b64) => if b64.Some? then Success(t.(audio := b64)) else Success(t)
    case OtherKind => Success(t)
  }

  /** The loop over the parts in order; the first failure ends it. */
  function DecodeParts(parts: seq<string>, parse: string -> Option<Json>, numberPrefix: string -> Json): Result<Tally, Thrown>
    decreases |parts|
  {
    if |parts| == 0 then Success(Start)
    else
      var before := DecodeParts(parts[..|parts| - 1], parse, numberPrefix);
      if before.Failure? then before else Step(before.value, parts[|parts| - 1], parse, numberPrefix)
  }

  /** The answer: exactly the three properties `outro`, `score`, `audio`. */
  function Answer(t: Tally): (j: Json)
    ensures j.JObj? && |j.fields| == 3
    ensures Get(j.fields, "outro") == Some(t.outro) && Get(j.fields, "score") == Some(t.score)
    ensures Get(j.fields, "audio") == Some(AudioJson(t.audio))
  {
    var last := [("audio", AudioJson(t.audio))];
    var tail := [("score", t.score)] + last;
    assert "outro" != "score" && "outro" != "audio" && "score" != "audio" by {
      assert "outro"[0] != "score"[0] && "outro"[0] != "audio"[0] && "score"[0] != "audio"[0];
    }
    GetCons("outro", t.outro, tail, "score");
    GetCons("outro", t.outro, tail, "audio");
    GetCons("outro", t.outro, tail, "outro");
    GetCons("score", t.score, last, "audio");
    GetCons("score", t.score, last, "score");
    GetCons("audio", AudioJson(t.audio), [], "audio");
    assert [("audio", AudioJson(t.audio))] + [] == last;
    JObj([("outro", t.outro)] + tail)
  }

  /** The handling of the Flask reply: only a multipart reply is answered. */
  function ReplyResponse(reply: HttpReply, parse: string -> Option<Json>, numberPrefix: string -> Json): (r: Response)
    ensures r.status == 200 || r.status == 500
    ensures r.status == 200 ==> reply.Ok() && reply.contentType.Some? && Includes(reply.contentType.value, "multipart/mixed")
  {
    if !reply.Ok() then ServerError("Flask server error: " + reply.statusText)
    else
      var contentType := if reply.contentType.Some? then reply.contentType.value else "";
      if !Includes(contentType, "multipart/mixed") then ServerError("Unsupported response type from Flask")
      else
        var boundary := BoundaryOf(contentType);
        if boundary.None? then Response(200, Answer(Start))
        else match DecodeParts(Parts(reply.body, boundary.value), parse, numberPrefix)
          case Failure(e) => ServerError(ThrownMessage(e))
          case Success(t) => Response(200, Answer(t))
  }

  /** `POST /api/end-interviews`, given the route's remembered values. */
  function Handle(req: InterviewRoute.Request, env: InterviewRoute.Env, numberPrefix: string -> Json,
                  question: Json, modelAnswer: Json): (r: (Response, Option<Backend.Form>))
    ensures r.1.Some? <==> InterviewRoute.Check(req, env).Ready?
    ensures r.1.Some? ==> var c := InterviewRoute.Check(req, env);
      r.1.value == OutboundForm(c.jobDescription, env.transcribe(c.fileName), question, modelAnswer)
    ensures r.1.None? ==> r.0 == InterviewRoute.Check(req, env).response
  {
    match InterviewRoute.Check(req, env)
    case Refused(response) => (response, None)
    case Ready(jd, fileName) =>
      var form := OutboundForm(jd, env.transcribe(fileName), question, modelAnswer);
      (ReplyResponse(env.backend(form), env.parse, numberPrefix), Some(form))
  }

  /** The route module. */
  class Route {
    var lastQuestion: Json
    var lastModelAnswer: Json

    constructor()
      ensures lastQuestion == JStr("") && lastModelAnswer == JStr("")
    {
      lastQuestion := JStr("");
      lastModelAnswer := JStr("");
    }

    /** The multipart decoding loop. */
    method Decode(parts: seq<string>, parse: string -> Option<Json>, numberPrefix: string -> Json) returns (r: Result<Tally, Thrown>)
      ensures r == DecodeParts(parts, parse, numberPrefix)
    {
      var outro, score, audio := JStr(""), JNull, None;
      var i := 0;
      while i < |parts|
        invariant 0 <= i <= |parts|
        invariant DecodeParts(parts[..i], parse, numberPrefix) == Success(Tally(outro, score, audio))
      {
        var part := parts[i];
        assert parts[..i + 1][..i] == parts[..i];
        if Includes(part, "application/json") {
          var text := JsonText(part);
          if text.Some? {
            var v := parse(text.value);
            if v.None? {
              FailureStays(parts, i + 1, parse, numberPrefix);
              return Failure(InvalidJson);
            }
            if v.value == JNull {
              FailureStays(parts, i + 1, parse, numberPrefix);
              return Failure(Thrown.NullProperty("outro"));
            }
            outro := Or(Member(v.value, "outro").value, JStr(""));
            var s := Member(v.value, "score").value;
            score := if Present(s) then ParseFloat(s.value, numberPrefix) else JNull;
          }
        } else if Includes(part, "audio/mpeg") {
          var b64 := AudioBase64(part);
          if b64.Some? {
            audio := b64;
          }
        }
        i := i + 1;
      }
      assert parts[..i] == parts;
      r := Success(Tally(outro, score, audio));
    }

    /** `POST /api/end-interviews`. */
    method Post(req: InterviewRoute.Request, env: InterviewRoute.Env, numberPrefix: string -> Json) returns (response: Response, sent: Option<Backend.Form>)
      ensures (response, sent) == Handle(req, env, numberPrefix, lastQuestion, lastModelAnswer)
    {
      sent := None;
      if !InterviewRoute.Given(req.jobId) || !InterviewRoute.Given(req.questionNum) {
        response := BadRequest();
        return;
      }
      if req.jobId.value !in env.jobs {
        response := ServerError(ThrownMessage(MissingDocument));
        return;
      }
      var jd := JobDescription.Build(env.jobs[req.jobId.value]);
      var fileName := InterviewRoute.RecordingName(req.questionNum.value);
      if fileName !in env.recordings {
        response := NotFound(fileName);
        return;
      }
      assert InterviewRoute.Check(req, env) == InterviewRoute.Ready(jd, fileName);
      var form := OutboundForm(jd, env.transcribe(fileName), lastQuestion, lastModelAnswer);
      sent := Some(form);
      var reply := env.backend(form);
      if !reply.Ok() {
        response := ServerError("Flask server error: " + reply.statusText);
        return;
      }
      var contentType := if reply.contentType.Some? then reply.contentType.value else "";
      if !Includes(contentType, "multipart/mixed") {
        response := ServerError("Unsupported response type from Flask");
        return;
      }
      var boundary := BoundaryOf(contentType);
      if boundary.None? {
        response := Response(200, Answer(Start));
        return;
      }
      var decoded := Decode(Parts(reply.body, boundary.value), env.parse, numberPrefix);
      if decoded.Failure? {
        response := ServerError(ThrownMessage(decoded.error));
      } else {
        response := Response(200, Answer(decoded.value));
      }
    }
  }

  /** Once a part has failed, later parts change nothing. */
  lemma {:induction false} FailureStays(parts: seq<string>, k: nat, parse: string -> Option<Json>, numberPrefix: string -> Json)
    requires k <= |parts|
    requires DecodeParts(parts[..k], parse, numberPrefix).Failure?
    ensures DecodeParts(parts, parse, numberPrefix) == DecodeParts(parts[..k], parse, numberPrefix)
    decreases |parts| - k
  {
    if k < |parts| {
      assert parts[..k + 1][..k] == parts[..k];
      FailureStays(parts, k + 1, parse, numberPrefix);
    } else {
      assert parts[..k] == parts;
    }
  }

  /** The Flask service always receives empty text for the question and the
      model answer from this route: the route's own remembered values start
      empty and are never set. */
  lemma SendsEmptyContext(req: InterviewRoute.Request, env: InterviewRoute.Env, numberPrefix: string -> Json)
    ensures Handle(req, env, numberPrefix, JStr(""), JStr("")).1.Some? ==>
      var form := Handle(req, env, numberPrefix, JStr(""), JStr("")).1.value;
      form["question"] == "" && form["model_answer"] == ""
  {
    var r := Handle(req, env, numberPrefix, JStr(""), JStr(""));
    if r.1.Some? {
      var c := InterviewRoute.Check(req, env);
      EmptyContextForm(c.jobDescription, env.transcribe(c.fileName));
    }
  }

  lemma EmptyContextForm(jobDescription: string, answer: string)
    ensures OutboundForm(jobDescription, answer, JStr(""), JStr(""))["question"] == ""
    ensures OutboundForm(jobDescription, answer, JStr(""), JStr(""))["model_answer"] == ""
  {
  }

  /** A falsy or missing score is answered as `null`, a number as itself,
      and any other truthy score as `parseFloat` of it. */
  lemma ScoreOfJsonPart(t: Tally, part: string, parse: string -> Option<Json>, numberPrefix: string -> Json, v: Json)
    requires Includes(part, "application/json") && JsonText(part).Some?
    requires parse(JsonText(part).value) == Some(v) && v.JObj?
    ensures Step(t, part, parse, numberPrefix).Success?
    ensures !Present(Get(v.fields, "score")) ==> Step(t, part, parse, numberPrefix).value.score == JNull
    ensures Get(v.fields, "score").Some? && Get(v.fields, "score").value.JNum? && Present(Get(v.fields, "score"))
            ==> Step(t, part, parse, numberPrefix).value.score == Get(v.fields, "score").value
    ensures Present(Get(v.fields, "score"))
            ==> Step(t, part, parse, numberPrefix).value.score == ParseFloat(Get(v.fields, "score").value, numberPrefix)
  {
    assert Classify(part) == JsonKind(JsonText(part));
    assert Member(v, "score") == Success(Get(v.fields, "score"));
  }

  /** Parts that are not JSON parts leave the outro and the score at their
      starting values. */
  lemma {:induction false} NoJsonPartDefaults(parts: seq<string>, parse: string -> Option<Json>, numberPrefix: string -> Json)
    requires forall i :: 0 <= i < |parts| ==> !Includes(parts[i], "application/json")
    ensures DecodeParts(parts, parse, numberPrefix).Success?
    ensures DecodeParts(parts, parse, numberPrefix).value.outro == JStr("")
    ensures DecodeParts(parts, parse, numberPrefix).value.score == JNull
    decreases |parts|
  {
    if |parts| > 0 {
      NoJsonPartDefaults(parts[..|parts| - 1], parse, numberPrefix);
    }
  }
}
