/** The Flask service's interview endpoints and the resume verdict: form
    validation, and the `multipart/mixed` envelope the interview endpoints
    build by hand (a JSON part, an `audio/mpeg` part and the close delimiter
    of section 5.1.1 of RFC 2046, under the fixed boundary `valecta`). The
    language-model and speech services are parameters. */
module Backend {
  import opened Wrappers
  import opened JsText
  import opened Latin1
  import opened JsonValue
  import opened PyJson

  const Boundary: string := "valecta"

  /** The declared type of every envelope. */
  const EnvelopeType: string := "multipart/mixed; " + "boundary=" + Boundary

  /** `request.form.to_dict()`: the first value of each field. */
  type Form = map<string, string>

  /** A score as the review service returns it: the value `json.dumps`
      writes and the text `str()` gives. */
  datatype Score = Score(json: Json, text: string)

  /** The language-model and speech services, taken as given. */
  datatype Services = Services(
    review: (string, string, string, string) -> Score,
    ask: (string, string) -> (string, string),
    outro: (string, string) -> string,
    speech: string -> seq<byte>)

  /** What an endpoint answers: a JSON error with its status, an uncaught
      exception (Flask's 500 page), or an envelope. */
  datatype Reply =
    | Rejected(status: int, error: string)
    | Crashed(exception: string)
    | Envelope(contentType: string, body: seq<byte>)

  /** The delimiter that opens each part. */
  const Delimiter: string := "--" + Boundary

  const CRLF: string := "\r\n"

  const ContentType: string := "Content-Type: "

  const JsonType: string := ContentType + "application/json"

  const AudioType: string := ContentType + "audio/mpeg"

  const Disposition: string := "Content-Disposition: attachment; filename="

  lemma DelimiterAscii()
    ensures IsAscii(Delimiter) && IsAscii(CRLF) && IsAscii(Delimiter + "--")
  {
  }

  lemma JsonTypeAscii()
    ensures IsAscii(JsonType)
  {
  }

  lemma AudioTypeAscii()
    ensures IsAscii(AudioType)
  {
  }

  lemma DispositionAscii()
    ensures IsAscii(Disposition)
  {
  }

  /** The JSON part: delimiter, header, blank line, the JSON text and the
      line break that ends the part. */
  function JsonPart(payload: Json): (r: string)
    ensures IsAscii(r)
  {
    DelimiterAscii();
    JsonTypeAscii();
    Delimiter + CRLF + JsonType + CRLF + CRLF + Dumps(payload) + CRLF
  }

  /** The headers of the audio part, up to and including the blank line. */
  function AudioHeader(fileName: string): (r: string)
    requires IsAscii(fileName)
    ensures IsAscii(r)
  {
    DelimiterAscii();
    AudioTypeAscii();
    DispositionAscii();
    Delimiter + CRLF + AudioType + CRLF + Disposition + fileName + CRLF + CRLF
  }

  /** The line break that ends the audio part and the close delimiter. */
  const Closing: string := CRLF + Delimiter + "--" + CRLF

  /** The bytes of an envelope: the ASCII texts encoded, the audio as it is. */
  function EnvelopeBody(payload: Json, fileName: string, audio: seq<byte>): (body: seq<byte>)
    requires IsAscii(fileName)
    ensures BinaryString(body)
         == JsonPart(payload) + AudioHeader(fileName) + BinaryString(audio) + Closing
  {
    var jp, ah := JsonPart(payload), AudioHeader(fileName);
    DelimiterAscii();
    assert IsAscii(Closing);
    var body := EncodeAscii(jp) + EncodeAscii(ah) + audio + EncodeAscii(Closing);
    BinaryConcat(EncodeAscii(jp) + EncodeAscii(ah) + audio, EncodeAscii(Closing));
    BinaryConcat(EncodeAscii(jp) + EncodeAscii(ah), audio);
    BinaryConcat(EncodeAscii(jp), EncodeAscii(ah));
    BinaryOfAscii(jp);
    BinaryOfAscii(ah);
    BinaryOfAscii(Closing);
    body
  }

  /** The JSON payload of `/interview`: the next question, its model answer
      and the score of the last answer as text. */
  function InterviewPayload(question: string, modelAnswer: string, score: Score): Json
  {
    JObj([("question", JStr(question)), ("model_answer", JStr(modelAnswer)), ("score", JStr(score.text))])
  }

  /** The JSON payload of `/end-interview`: the outro text and the score as
      the service returned it. */
  function EndPayload(outro: string, score: Score): Json
  {
    JObj([("outro", JStr(outro)), ("score", score.json)])
  }

  /** The fields `/interview` reads from its form: answer, job description,
      previous question and model answer, the last two defaulting to "". */
  datatype InterviewInput = InterviewInput(answer: string, jobDescription: string, question: string, modelAnswer: string)

  function FieldOr(form: Form, key: string, default: string): string
  {
    if key in form then form[key] else default
  }

  /** The key of the answer: `human_answer_text` for `/interview`,
      `human_answer` for `/end-interview`. */
  const InterviewAnswerKey: string := "human_answer_text"
  const EndAnswerKey: string := "human_answer"

  /** Form validation of both routes: the answer (under the route's key)
      and the job description must be there; the previous question and
      model answer default to "". */
  function RequestFields(form: Form, answerKey: string): (r: Option<InterviewInput>)
    ensures r.Some? <==> answerKey in form && "job_description" in form
    ensures r.Some? ==>
      && r.value.answer == form[answerKey]
      && r.value.jobDescription == form["job_description"]
      && r.value.question == (if "question" in form then form["question"] else "")
      && r.value.modelAnswer == (if "model_answer" in form then form["model_answer"] else "")
  {
    if |form| == 0 || answerKey !in form || "job_description" !in form then None
    else Some(InterviewInput(form[answerKey], form["job_description"],
                             FieldOr(form, "question", ""), FieldOr(form, "model_answer", "")))
  }

  /** `POST /interview`: score the answer, ask the next question, speak it,
      and send question, model answer and score with the speech. */
  function Interview(form: Form, ai: Services): (r: Reply)
    ensures RequestFields(form, InterviewAnswerKey).None? <==> r == Rejected(400, "Invalid request")
    ensures r.Envelope? ==> r.contentType == EnvelopeType
  {
    match RequestFields(form, InterviewAnswerKey)
    case None => Rejected(400, "Invalid request")
    case Some(input) =>
      var score := ai.review(input.jobDescription, input.question, input.modelAnswer, input.answer);
      var (question, modelAnswer) := ai.ask(input.jobDescription, input.answer);
      Envelope(EnvelopeType, EnvelopeBody(InterviewPayload(question, modelAnswer, score), "processed.mp3", ai.speech(question)))
  }

  /** `POST /end-interview` as written: after validation and scoring it calls
      the outro generator with two arguments, while the generator takes none,
      so every valid request raises a TypeError. */
  function EndInterviewAsWritten(form: Form, ai: Services): (r: Reply)
    ensures RequestFields(form, EndAnswerKey).None? ==> r == Rejected(400, "Invalid request")
    ensures RequestFields(form, EndAnswerKey).Some? ==> r.Crashed?
  {
    match RequestFields(form, EndAnswerKey)
    case None => Rejected(400, "Invalid request")
    case Some(_) => Crashed("TypeError")
  }

  /** `POST /end-interview` as intended: score the last answer, produce the
      outro, speak it, and send outro and score with the speech. */
  function EndInterview(form: Form, ai: Services): (r: Reply)
    ensures RequestFields(form, EndAnswerKey).None? <==> r == Rejected(400, "Invalid request")
    ensures r.Envelope? ==> r.contentType == EnvelopeType
  {
    match RequestFields(form, EndAnswerKey)
    case None => Rejected(400, "Invalid request")
    case Some(input) =>
      var score := ai.review(input.jobDescription, input.question, input.modelAnswer, input.answer);
      var outro := ai.outro(input.jobDescription, input.answer);
      Envelope(EnvelopeType, EnvelopeBody(EndPayload(outro, score), "outro.mp3", ai.speech(outro)))
  }

  /** No valid `/end-interview` request ever gets an envelope as written. */
  lemma EndInterviewNeverAnswers(form: Form, ai: Services)
    ensures !EndInterviewAsWritten(form, ai).Envelope?
    ensures RequestFields(form, EndAnswerKey).Some? ==> EndInterview(form, ai).Envelope?
  {
  }
}
