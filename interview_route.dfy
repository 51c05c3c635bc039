/** The Next.js `/api/interview` route: it checks the form, builds the job
    description, finds the saved recording, sends the transcript with the
    remembered question and model answer to the Flask service, and decodes
    the reply, remembering the new question and model answer in module
    state between requests. */
module InterviewRoute {
  import opened Wrappers
  import opened JsText
  import opened Latin1
  import opened JsonValue
  import opened Http
  import opened Multipart
  import JobDescription
  import Backend

  /** The form fields the route reads, `None` when absent. */
  datatype Request = Request(jobId: Option<string>, questionNum: Option<string>)

  /** What the route talks to: the job documents by id, the names of the
      files under `public/recordings`, the transcription service, the Flask
      service, `JSON.parse` (`None` where it throws) and UTF-8 decoding. */
  datatype Env = Env(
    jobs: map<string, seq<(string, Json)>>,
    recordings: set<string>,
    transcribe: string -> string,
    backend: Backend.Form -> HttpReply,
    parse: string -> Option<Json>,
    utf8: seq<byte> -> string)

  /** A form field that is present and not empty (JavaScript truthiness). */
  predicate Given(m: Option<string>)
  {
    m.Some? && m.value != ""
  }

  /** The recording a question's answer is read from. */
  function RecordingName(questionNum: string): string
  {
    "question_" + questionNum + "_response.webm"
  }

  /** The form sent to the Flask service. */
  function OutboundForm(jobDescription: string, answer: string, question: Json, modelAnswer: Json): (f: Backend.Form)
    ensures f.Keys == {"job_description", "human_answer_text", "question", "model_answer"}
  {
    map["job_description" := jobDescription, "human_answer_text" := answer,
        "question" := ToJsString(question), "model_answer" := ToJsString(modelAnswer)]
  }

  /** The locals of the decoding loop and the two remembered values. */
  datatype Decoded = Decoded(parsed: Json, audio: Option<string>, question: Json, modelAnswer: Json)

  /** One part: a JSON part replaces the parsed value and both remembered
      values ("" for a missing or falsy field); an audio part with data sets
      the audio; anything else changes nothing. */
  function Step(st: Decoded, part: string, parse: string -> Option<Json>): (r: Result<Decoded, Thrown>)
    ensures r.Success? && !Classify(part).JsonKind? ==> r.value.question == st.question && r.value.modelAnswer == st.modelAnswer
  {
    match Classify(part)
    case JsonKind(text) =>
      if text.None? then Success(st)
      else
        var v := parse(text.value);
        if v.None? then Failure(InvalidJson)
        else if v.value == JNull then Failure(Thrown.NullProperty("question"))
        else Success(Decoded(v.value, st.audio,
                             Or(Member(v.value, "question").value, JStr("")),
                             Or(Member(v.value, "model_answer").value, JStr(""))))
    case AudioKind(b64) => if b64.Some? then Success(st.(audio := b64)) else Success(st)
    case OtherKind => Success(st)
  }

  /** The loop over the parts, in order; the first failure stops it and
      keeps what earlier parts remembered. */
  function DecodeParts(parts: seq<string>, init: Decoded, parse: string -> Option<Json>): (Decoded, Option<Thrown>)
    decreases |parts|
  {
    if |parts| == 0 then (init, None)
    else
      var (st, failure) := DecodeParts(parts[..|parts| - 1], init, parse);
      if failure.Some? then (st, failure)
      else match Step(st, parts[|parts| - 1], parse)
        case Success(next) => (next, None)
        case Failure(e) => (st, Some(e))
  }

  /** Once a part has failed, later parts change nothing. */
  lemma {:induction false} FailureStays(parts: seq<string>, k: nat, init: Decoded, parse: string -> Option<Json>)
    requires k <= |parts|
    requires DecodeParts(parts[..k], init, parse).1.Some?
    ensures DecodeParts(parts, init, parse) == DecodeParts(parts[..k], init, parse)
    decreases |parts| - k
  {
    if k < |parts| {
      assert parts[..k + 1][..k] == parts[..k];
      FailureStays(parts, k + 1, init, parse);
    } else {
      assert parts[..k] == parts;
    }
  }

  /** The answer to a multipart reply: the parsed JSON's own properties
      and `audio`. */
  function MultipartAnswer(st: Decoded): Json
  {
    JObj(Put(Spread(st.parsed), "audio", AudioJson(st.audio)))
  }

  /** The route's answer, what it sent to the Flask service (if anything),
      and the remembered question and model answer afterwards. */
  datatype Turn = Turn(response: Response, sent: Option<Backend.Form>, question: Json, modelAnswer: Json)

  /** The route's answer and the remembered question and model answer
      after a reply of the Flask service. */
  datatype Outcome = Outcome(response: Response, question: Json, modelAnswer: Json)

  /** A multipart reply: without a boundary there is nothing to decode;
      a part that throws gives 500 after what earlier parts remembered. */
  function MultipartOutcome(contentType: string, body: seq<byte>, parse: string -> Option<Json>, question: Json, modelAnswer: Json): (out: Outcome)
    ensures out.response.status == 200 || out.response.status == 500
  {
    var boundary := BoundaryOf(contentType);
    if boundary.None? then
      Outcome(Response(200, MultipartAnswer(Decoded(JObj([]), None, question, modelAnswer))), question, modelAnswer)
    else
      var (st, failure) := DecodeParts(Parts(body, boundary.value), Decoded(JObj([]), None, question, modelAnswer), parse);
      if failure.Some? then Outcome(ServerError(ThrownMessage(failure.value)), st.question, st.modelAnswer)
      else Outcome(Response(200, MultipartAnswer(st)), st.question, st.modelAnswer)
  }

  /** A JSON reply: answered as parsed; each remembered value is replaced
      only by a truthy field. */
  function JsonOutcome(text: string, parse: string -> Option<Json>, question: Json, modelAnswer: Json): (out: Outcome)
    ensures out.response.status == 200 || out.response.status == 500
  {
    var result := parse(text);
    if result.None? then Outcome(ServerError(ThrownMessage(InvalidJson)), question, modelAnswer)
    else if result.value == JNull then Outcome(ServerError(ThrownMessage(Thrown.NullProperty("question"))), question, modelAnswer)
    else
      var q := Member(result.value, "question").value;
      var ma := Member(result.value, "model_answer").value;
      Outcome(Response(200, result.value),
              if Present(q) then q.value else question,
              if Present(ma) then ma.value else modelAnswer)
  }

  /** The handling of the Flask service's reply, by status and content type. */
  function ReplyOutcome(reply: HttpReply, env: Env, question: Json, modelAnswer: Json): (out: Outcome)
    ensures out.response.status == 200 || out.response.status == 500
    ensures !reply.Ok() ==> out.response.status == 500 && out.question == question && out.modelAnswer == modelAnswer
  {
    if !reply.Ok() then Outcome(ServerError("AI server error: " + reply.statusText), question, modelAnswer)
    else
      var contentType := if reply.contentType.Some? then reply.contentType.value else "";
      if Includes(contentType, "multipart/mixed") then MultipartOutcome(contentType, reply.body, env.parse, question, modelAnswer)
      else if Includes(contentType, "application/json") then JsonOutcome(env.utf8(reply.body), env.parse, question, modelAnswer)
      else Outcome(ServerError("Unsupported response type from Flask"), question, modelAnswer)
  }

  /** What the route finds before calling the Flask service: the job
      description and the recording's name, or the answer it gives instead. */
  datatype Checked = Ready(jobDescription: string, fileName: string) | Refused(response: Response)

  /** The checks in the source's order: missing fields (400), then the job
      document (500 when it is missing), then the recording (404). */
  function Check(req: Request, env: Env): (c: Checked)
    ensures c.Ready? <==> Given(req.jobId) && Given(req.questionNum) && req.jobId.value in env.jobs
                          && RecordingName(req.questionNum.value) in env.recordings
    ensures c.Ready? ==> c.fileName == RecordingName(req.questionNum.value)
                         && c.jobDescription == JobDescription.Build(env.jobs[req.jobId.value])
    ensures c.Refused? ==> (c.response.status == 400 <==> !Given(req.jobId) || !Given(req.questionNum))
  {
    if !Given(req.jobId) || !Given(req.questionNum) then Refused(BadRequest())
    else if req.jobId.value !in env.jobs then Refused(ServerError(ThrownMessage(MissingDocument)))
    else
      var fileName := RecordingName(req.questionNum.value);
      if fileName !in env.recordings then Refused(NotFound(fileName))
      else Ready(JobDescription.Build(env.jobs[req.jobId.value]), fileName)
  }

  /** `POST /api/interview`, given the remembered question and model answer. */
  function Handle(req: Request, env: Env, question: Json, modelAnswer: Json): (t: Turn)
    ensures t.sent.Some? <==> Check(req, env).Ready?
    ensures t.sent.None? ==> t == Turn(Check(req, env).response, None, question, modelAnswer)
  {
    match Check(req, env)
    case Refused(response) => Turn(response, None, question, modelAnswer)
    case Ready(jd, fileName) =>
      var form := OutboundForm(jd, env.transcribe(fileName), question, modelAnswer);
      var out := ReplyOutcome(env.backend(form), env, question, modelAnswer);
      Turn(out.response, Some(form), out.question, out.modelAnswer)
  }

  /** The Flask service is called exactly when both fields are given, the
      job document exists and the recording is on disk; it then receives
      the job description, the transcript of that recording and the
      remembered question and model answer. A request answered without
      calling it changes nothing remembered. Only missing fields give 400. */
  lemma ServiceCalledOnlyWhenReady(req: Request, env: Env, question: Json, modelAnswer: Json)
    ensures var t := Handle(req, env, question, modelAnswer);
      && (t.sent.Some? <==> Given(req.jobId) && Given(req.questionNum) && req.jobId.value in env.jobs
                            && RecordingName(req.questionNum.value) in env.recordings)
      && (t.sent.Some? ==> t.sent.value == OutboundForm(JobDescription.Build(env.jobs[req.jobId.value]),
                                                          env.transcribe(RecordingName(req.questionNum.value)),
                                                          question, modelAnswer))
      && (t.sent.None? ==> t.question == question && t.modelAnswer == modelAnswer)
      && (t.response.status == 400 <==> !Given(req.jobId) || !Given(req.questionNum))
  {
    var c := Check(req, env);
    var t := Handle(req, env, question, modelAnswer);
    var form := if c.Ready? then OutboundForm(c.jobDescription, env.transcribe(c.fileName), question, modelAnswer) else map[];
    var out := ReplyOutcome(env.backend(form), env, question, modelAnswer);
    if c.Ready? {
      assert t == Turn(out.response, Some(form), out.question, out.modelAnswer);
    } else {
      assert t == Turn(c.response, None, question, modelAnswer);
    }
    TurnFacts(t, c, form, out, question, modelAnswer);
  }

  /** What a turn shows, read off the checks and the reply's outcome. */
  lemma TurnFacts(t: Turn, c: Checked, form: Backend.Form, out: Outcome, question: Json, modelAnswer: Json)
    requires c.Ready? ==> t == Turn(out.response, Some(form), out.question, out.modelAnswer)
    requires out.response.status == 200 || out.response.status == 500
    requires c.Refused? ==> t == Turn(c.response, None, question, modelAnswer)
    ensures t.sent.Some? <==> c.Ready?
    ensures t.sent.Some? ==> t.sent.value == form
    ensures t.sent.None? ==> t.question == question && t.modelAnswer == modelAnswer
    ensures t.response.status == 400 <==> c.Refused? && c.response.status == 400
  {
  }

  /** The job lookup (500) comes before the recording lookup (404). */
  lemma LookupsInOrder(req: Request, env: Env)
    requires Given(req.jobId) && Given(req.questionNum)
    ensures req.jobId.value !in env.jobs ==> Check(req, env) == Refused(ServerError(ThrownMessage(MissingDocument)))
    ensures req.jobId.value in env.jobs && RecordingName(req.questionNum.value) !in env.recordings
            ==> Check(req, env) == Refused(NotFound(RecordingName(req.questionNum.value)))
  {
  }

  /** A successful multipart answer holds the audio under `audio` and every
      other property of the parsed JSON unchanged. */
  lemma MultipartAnswerFields(st: Decoded, k: string)
    ensures MultipartAnswer(st).JObj?
    ensures Get(MultipartAnswer(st).fields, "audio") == Some(AudioJson(st.audio))
    ensures k != "audio" ==> Get(MultipartAnswer(st).fields, k) == Get(Spread(st.parsed), k)
  {
    GetPut(Spread(st.parsed), "audio", AudioJson(st.audio), k);
  }

  /** A multipart type without a boundary is answered `{"audio": null}` and
      remembers nothing new. */
  lemma NoBoundaryAnswer(contentType: string, body: seq<byte>, parse: string -> Option<Json>, question: Json, modelAnswer: Json)
    requires !Includes(contentType, "boundary=")
    ensures MultipartOutcome(contentType, body, parse, question, modelAnswer)
         == Outcome(Response(200, JObj([("audio", JNull)])), question, modelAnswer)
  {
    assert Put([], "audio", JNull) == [("audio", JNull)];
  }

  /** Parts that are not JSON parts leave the remembered values alone. */
  lemma {:induction false} NoJsonPartKeepsMemory(parts: seq<string>, init: Decoded, parse: string -> Option<Json>)
    requires forall i :: 0 <= i < |parts| ==> !Includes(parts[i], "application/json")
    ensures var (st, failure) := DecodeParts(parts, init, parse);
      failure.None? && st.question == init.question && st.modelAnswer == init.modelAnswer && st.parsed == init.parsed
    decreases |parts|
  {
    if |parts| > 0 {
      NoJsonPartKeepsMemory(parts[..|parts| - 1], init, parse);
    }
  }

  /** A JSON part whose text parses to an object sets both remembered values
      from it, "" standing for a missing or falsy field. */
  lemma JsonPartRemembers(st: Decoded, part: string, parse: string -> Option<Json>, v: Json)
    requires JsonText(part).Some? && Includes(part, "application/json")
    requires parse(JsonText(part).value) == Some(v) && v.JObj?
    ensures Step(st, part, parse).Success?
    ensures Step(st, part, parse).value.question == (if Present(Get(v.fields, "question")) then Get(v.fields, "question").value else JStr(""))
    ensures Step(st, part, parse).value.modelAnswer == (if Present(Get(v.fields, "model_answer")) then Get(v.fields, "model_answer").value else JStr(""))
  {
    assert Classify(part) == JsonKind(JsonText(part));
    assert Member(v, "question") == Success(Get(v.fields, "question"));
    assert Member(v, "model_answer") == Success(Get(v.fields, "model_answer"));
  }

  /** A JSON reply replaces a remembered value only with a truthy field; a
      falsy or missing one keeps what was remembered. */
  lemma JsonReplyKeepsFalsy(text: string, parse: string -> Option<Json>, question: Json, modelAnswer: Json, v: Json)
    requires parse(text) == Some(v) && v.JObj?
    ensures var out := JsonOutcome(text, parse, question, modelAnswer);
      && out.response == Response(200, v)
      && out.question == (if Present(Get(v.fields, "question")) then Get(v.fields, "question").value else question)
      && out.modelAnswer == (if Present(Get(v.fields, "model_answer")) then Get(v.fields, "model_answer").value else modelAnswer)
  {
  }

  /** The route module: its remembered question and model answer, and the
      handler. */
  class Route {
    var lastQuestion: Json
    var lastModelAnswer: Json

    constructor()
      ensures lastQuestion == JStr("") && lastModelAnswer == JStr("")
    {
      lastQuestion := JStr("");
      lastModelAnswer := JStr("");
    }

    /** The multipart decoding loop. */
    method Decode(parts: seq<string>, parse: string -> Option<Json>) returns (parsed: Json, audio: Option<string>, failure: Option<Thrown>)
      modifies this
      ensures var (st, f) := DecodeParts(parts, Decoded(JObj([]), None, old(lastQuestion), old(lastModelAnswer)), parse);
        && failure == f && lastQuestion == st.question && lastModelAnswer == st.modelAnswer
        && (f.None? ==> parsed == st.parsed && audio == st.audio)
    {
      ghost var init := Decoded(JObj([]), None, lastQuestion, lastModelAnswer);
      parsed, audio, failure := JObj([]), None, None;
      var i := 0;
      while i < |parts|
        invariant 0 <= i <= |parts|
        invariant DecodeParts(parts[..i], init, parse) == (Decoded(parsed, audio, lastQuestion, lastModelAnswer), None)
      {
        var part := parts[i];
        assert parts[..i + 1][..i] == parts[..i];
        match Classify(part) {
          case JsonKind(text) =>
            if text.Some? {
              var v := parse(text.value);
              if v.None? {
                failure := Some(InvalidJson);
                FailureStays(parts, i + 1, init, parse);
                return;
              }
              if v.value == JNull {
                failure := Some(Thrown.NullProperty("question"));
                FailureStays(parts, i + 1, init, parse);
                return;
              }
              parsed := v.value;
              lastQuestion := Or(Member(parsed, "question").value, JStr(""));
              lastModelAnswer := Or(Member(parsed, "model_answer").value, JStr(""));
            }
          case AudioKind(b64) =>
            if b64.Some? {
              audio := b64;
            }
          case OtherKind =>
        }
        i := i + 1;
      }
      assert parts[..i] == parts;
    }

    /** `POST /api/interview`. */
    method Post(req: Request, env: Env) returns (response: Response, sent: Option<Backend.Form>)
      modifies this
      ensures Turn(response, sent, lastQuestion, lastModelAnswer) == Handle(req, env, old(lastQuestion), old(lastModelAnswer))
    {
      sent := None;
      if !Given(req.jobId) || !Given(req.questionNum) {
        response := BadRequest();
        return;
      }
      if req.jobId.value !in env.jobs {
        response := ServerError(ThrownMessage(MissingDocument));
        return;
      }
      var jd := JobDescription.Build(env.jobs[req.jobId.value]);
      var fileName := RecordingName(req.questionNum.value);
      if fileName !in env.recordings {
        response := NotFound(fileName);
        return;
      }
      assert Check(req, env) == Ready(jd, fileName);
      var form := OutboundForm(jd, env.transcribe(fileName), lastQuestion, lastModelAnswer);
      sent := Some(form);
      response := Receive(env.backend(form), env);
    }

    /** The handling of the Flask service's reply. */
    method Receive(reply: HttpReply, env: Env) returns (response: Response)
      modifies this
      ensures Outcome(response, lastQuestion, lastModelAnswer) == ReplyOutcome(reply, env, old(lastQuestion), old(lastModelAnswer))
    {
      if !reply.Ok() {
        response := ServerError("AI server error: " + reply.statusText);
        return;
      }
      var contentType := if reply.contentType.Some? then reply.contentType.value else "";
      if Includes(contentType, "multipart/mixed") {
        var boundary := BoundaryOf(contentType);
        var parsed: Json := JObj([]);
        var audio: Option<string> := None;
        if boundary.Some? {
          var failure;
          parsed, audio, failure := Decode(Parts(reply.body, boundary.value), env.parse);
          if failure.Some? {
            response := ServerError(ThrownMessage(failure.value));
            return;
          }
        }
        response := Response(200, MultipartAnswer(Decoded(parsed, audio, lastQuestion, lastModelAnswer)));
      } else if Includes(contentType, "application/json") {
        var result := env.parse(env.utf8(reply.body));
        if result.None? {
          response := ServerError(ThrownMessage(InvalidJson));
          return;
        }
        if result.value == JNull {
          response := ServerError(ThrownMessage(Thrown.NullProperty("question")));
          return;
        }
        var q := Member(result.value, "question").value;
        if Present(q) {
          lastQuestion := q.value;
        }
        var ma := Member(result.value, "model_answer").value;
        if Present(ma) {
          lastModelAnswer := ma.value;
        }
        response := Response(200, result.value);
      } else {
        response := ServerError("Unsupported response type from Flask");
      }
    }
  }
}
