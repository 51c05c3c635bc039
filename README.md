# Valecta interview pipeline — a Dafny model

Valecta is a hiring site. A candidate answers five spoken interview questions in the browser. A Next.js
route forwards each recorded answer to a Flask service. The service replies with the next question and its
spoken audio, packed into a hand-built `multipart/mixed` body under the boundary `valecta`. The route takes
that body apart again.

The model covers the whole turn.

- **The Flask side.** The `/interview` and `/end-interview` handlers validate the form and build the
  envelope. The JSON part is written as Python's `json.dumps` writes it, and the delimiters follow section
  5.1.1 of RFC 2046.
- **The two Next.js routes.**
  - Both check the request and build a job description from the job document.
  - They pick a branch by content type. The multipart decoding loop runs over a latin-1 "binary" string.
    It finds the boundary, classifies each part by substring search, and base64-encodes the trimmed audio
    (section 4 of RFC 4648).
  - `/api/interview` keeps the last question and model answer in module state. It is modelled as a class.
- **The session page.** It is a state machine over `questionCount`, `uploadsCount`, `isRecording`,
  `interviewComplete`, `uploading` and the captured chunks.
  - `answerAndNext` is cut into events at its awaits. The press that sends the save request is one event.
    The save's reply is another. The end of `uploadAnswer` is a third. So a second answer can start while
    the first is still being saved.
  - Turn 5 goes to the end-interview route and writes `results_pending` once.
- **The save-recording route.** It decides the file name the interview route later looks up.

Two round trips are proved end to end, from the Flask envelope to the route's JSON answer:

- `RoundTrip.InterviewRoundTrip`
- `RoundTrip.EndRoundTrip`

Under them sit three smaller round trips:

- latin-1 bytes to string and back;
- base64 encode and then `atob`;
- the envelope parts recovered by the route's parser.

The smaller cores elsewhere in the site are modelled too:

- the career-path cards of the path predictor;
- the job search filter, its sort and the relative dates;
- the dashboard's status badges and its filter of applications;
- the employer's skills editor and job posting;
- the plagiarism checker's text cleaning, URL allow-list and verdict, and the `resume_review` verdict that
  uses it.

Foreign services stay opaque. Each one is a parameter of the function that uses it:

- the OpenAI calls: transcription, chat, review and speech;
- the Appwrite store;
- `JSON.parse`;
- the browser's recorder;
- the page fetcher;
- the TF-IDF similarity.

## Model

| member | source | states |
|---|---|---|
| Backend.RequestFields | ai/app.py:75-82 | the form is accepted exactly when the answer (under `human_answer_text` for `/interview`, `human_answer` for `/end-interview`) and `job_description` are present; `question` and `model_answer` default to the empty text |
| Backend.Interview | ai/app.py:72-114 | a form missing a required field, and only such a form, is answered 400 "Invalid request"; any envelope is declared `multipart/mixed; boundary=valecta` |
| Backend.JsonPart | ai/app.py:106 | the JSON part of the envelope is pure ASCII, because `json.dumps` escapes everything else |
| Backend.AudioHeader | ai/app.py:108 | the headers of the audio part are ASCII for an ASCII file name |
| Backend.EnvelopeBody | ai/app.py:104-112 | the body's bytes, read as a binary string, are the JSON part, the audio headers, the audio and the close delimiter |
| Backend.EndInterviewAsWritten | ai/app.py:187-204 | a form missing a field gives 400; every valid form makes the handler raise (a 500 error page) |
| Backend.EndInterview | ai/app.py:187-241 | as intended: a form missing a field, and only such a form, gives 400; otherwise the envelope is `multipart/mixed; boundary=valecta` |
| Backend.EndInterviewNeverAnswers | ai/app.py:204 | the handler as written never sends an envelope; the corrected one always does for a valid form |
| PyJson.EscapeChar | ai/app.py:106 | a character is written as itself exactly when it is printable ASCII other than a quote or a backslash; every escape is printable |
| PyJson.Dumps | ai/app.py:106 | the serialised payload is printable ASCII, and an object is enclosed in braces |
| Http.FromBackend | frontend/app/api/interview/route.ts:258-263 | an envelope reaches the route as an ok reply with its declared type and body intact; a rejection keeps its status; a crash arrives as 500 |
| JsText.IndexOf | frontend/app/api/interview/route.ts:282 | the result is the first position where the text occurs, or -1 exactly when it occurs nowhere |
| JsText.Split | frontend/app/api/interview/route.ts:267 | the pieces joined with the separator give the text back, and no piece contains the separator |
| JsText.SplitCuts | frontend/app/api/interview/route.ts:267 | each piece ends where the separator first occurs after it, a text without the separator is one piece, and the first piece is the text before the first occurrence |
| JsText.TrimStart | frontend/app/api/interview/route.ts:284 | only leading white space is dropped, and what is left does not start with white space |
| JsText.TrimEnd | frontend/app/api/interview/route.ts:284 | only trailing white space is dropped, and what is left does not end with white space |
| JsText.Trim | frontend/app/api/interview/route.ts:284 | no white space is left at either end |
| JsText.TrimEmpty | frontend/app/api/interview/route.ts:284 | trimming leaves nothing exactly when the text is all white space |
| JsText.TrimAppendSpace | frontend/app/api/interview/route.ts:227-228 | white space added at the end does not change the trimmed text |
| JsText.SplitAfter | frontend/app/api/interview/route.ts:272 | splitting `a + sep + rest` where `a` has no separator yields `a` and then the pieces of `rest` |
| JsText.ToLower | frontend/app/candidate/jobs/page.tsx:103-109 | lower-casing keeps the length and folds each character |
| Latin1.BinaryString | frontend/app/api/interview/route.ts:272 | `toString("binary")` gives one latin-1 character per byte, with the byte's value |
| Latin1.FromBinary | frontend/app/api/interview/route.ts:287 | `Buffer.from(s, "binary")` keeps the low eight bits of each character |
| Latin1.BytesRoundTrip | frontend/app/api/interview/route.ts:272-288 | bytes turned into a binary string and back are the same bytes |
| Latin1.StringRoundTrip | frontend/app/api/interview/route.ts:272-288 | a latin-1 string turned into bytes and back is the same string |
| Base64.Encode | frontend/app/api/interview/route.ts:288 | the encoding has four characters for every three bytes or part of them |
| Base64.DigitRoundTrip | frontend/app/candidate/interview/session/page.tsx:369 | each base64 digit decodes to the value it encodes |
| Base64.DecodeDigits | frontend/app/candidate/interview/session/page.tsx:369 | a run of digits decodes exactly when its length is not one more than a multiple of four |
| Base64.DecodeEncodeDigits | frontend/app/candidate/interview/session/page.tsx:369 | decoding the digits of any bytes gives those bytes back |
| Base64.AtobEncode | frontend/app/candidate/interview/session/page.tsx:369 | `atob` of the route's base64 gives the original bytes as a binary string |
| Base64.Atob | frontend/app/candidate/interview/session/page.tsx:369 | a decoded result is a latin-1 binary string |
| JsonValue.Get | frontend/app/api/interview/route.ts:278-279 | a lookup finds the first binding of the key, and finds nothing exactly when the key is unbound |
| JsonValue.Member | frontend/app/api/interview/route.ts:278-279 | reading a property throws exactly on `null`; a value found is the object's binding |
| JsonValue.Or | frontend/app/api/interview/route.ts:210-228 | `m \|\| d` is `m` when `m` is truthy and `d` otherwise |
| JsonValue.OrElse | frontend/app/api/interview/route.ts:210-228 | `a \|\| b` on property reads keeps a truthy `a` and falls back to `b` |
| JsonValue.Spread | frontend/app/api/interview/route.ts:295-298 | `{...v}` copies an object's bindings, a string's characters and an array's items by index, and nothing else |
| JsonValue.GetPut | frontend/app/api/interview/route.ts:295-298 | after a key is set, reading it gives the new value and every other key reads as before |
| JobDescription.Build | frontend/app/api/interview/route.ts:210-228 | the description is the template lines with only the leading line break and trailing white space dropped |
| JobDescription.BuildKeepsHead | frontend/app/api/interview/route.ts:210-228 | the description starts with every template line up to `Experience Level:`; a non-blank level follows after one space, and a blank level leaves the label last |
| Multipart.BoundaryOf | frontend/app/api/interview/route.ts:267-271 | a boundary found is non-empty, contains no further `boundary=` and follows `boundary=` in the type; without `boundary=` there is none |
| Multipart.JsonText | frontend/app/api/interview/route.ts:274-277 | a JSON text is found only in a part that has a blank line |
| Multipart.AudioBase64 | frontend/app/api/interview/route.ts:281-289 | audio is found only in a part that has a blank line |
| Multipart.Classify | frontend/app/api/interview/route.ts:274-281 | a part is JSON exactly when it mentions `application/json`, and audio exactly when it does not but mentions `audio/mpeg` |
| InterviewRoute.OutboundForm | frontend/app/api/interview/route.ts:245-249 | the form sent has exactly the job description, the transcribed answer, the question and the model answer |
| InterviewRoute.Check | frontend/app/api/interview/route.ts:192-239 | the request is ready exactly when both ids are given, the job exists and the recording exists; 400 exactly when an id is missing |
| InterviewRoute.Handle | frontend/app/api/interview/route.ts:190-256 | the service is called exactly when the checks pass; otherwise the checks' own answer is given and the remembered question and model answer are kept |
| InterviewRoute.ServiceCalledOnlyWhenReady | frontend/app/api/interview/route.ts:196-256 | the service is called exactly when the checks pass, with the remembered question and model answer; otherwise nothing remembered changes, and only a missing id gives 400 |
| InterviewRoute.LookupsInOrder | frontend/app/api/interview/route.ts:204-239 | a missing job gives 500 before a missing recording gives 404, and the file looked up is `question_{n}_response.webm` |
| InterviewRoute.Step | frontend/app/api/interview/route.ts:273-292 | a part that is not JSON never changes the remembered question or model answer |
| InterviewRoute.FailureStays | frontend/app/api/interview/route.ts:277-292 | after a part fails to parse, the later parts change nothing |
| InterviewRoute.NoJsonPartKeepsMemory | frontend/app/api/interview/route.ts:273-292 | a body without a JSON part decodes to `{}` and leaves the memory as it was |
| InterviewRoute.JsonPartRemembers | frontend/app/api/interview/route.ts:274-280 | a JSON part overwrites both memory fields, with the empty text for a missing or falsy field |
| InterviewRoute.MultipartAnswerFields | frontend/app/api/interview/route.ts:295-298 | the answer is the parsed object with `audio` set to the audio found, or `null` |
| InterviewRoute.NoBoundaryAnswer | frontend/app/api/interview/route.ts:267-271 | without a boundary the answer is `{audio: null}` with status 200 and the memory unchanged |
| InterviewRoute.MultipartOutcome | frontend/app/api/interview/route.ts:265-299 | a multipart reply is answered 200 or 500 |
| InterviewRoute.JsonOutcome | frontend/app/api/interview/route.ts:302-313 | a plain JSON reply is answered 200 or 500 |
| InterviewRoute.JsonReplyKeepsFalsy | frontend/app/api/interview/route.ts:302-312 | a plain JSON reply overwrites each memory field only with a truthy new value |
| InterviewRoute.ReplyOutcome | frontend/app/api/interview/route.ts:258-325 | a reply is answered 200 or 500, and a reply that is not ok gives 500 with the memory unchanged |
| InterviewRoute.Route.constructor | frontend/app/api/interview/route.ts:174-175 | the memory starts as two empty texts |
| InterviewRoute.Route.Decode | frontend/app/api/interview/route.ts:271-292 | the decoding loop gives what the fold over the parts gives, memory included |
| InterviewRoute.Route.Post | frontend/app/api/interview/route.ts:190-256 | the request handler answers and remembers what the specification of a request prescribes |
| InterviewRoute.Route.Receive | frontend/app/api/interview/route.ts:258-325 | the reply handler answers and remembers what the specification of a reply prescribes |
| EndInterviewsRoute.OutboundForm | frontend/app/api/end-interviews/route.ts:125-133 | the form has exactly the four fields, with the question and model answer as `String` would write them |
| EndInterviewsRoute.Step | frontend/app/api/end-interviews/route.ts:155-176 | only a JSON part can fail, and a part that is not JSON keeps the outro and the score |
| EndInterviewsRoute.FailureStays | frontend/app/api/end-interviews/route.ts:157-176 | after a part fails to parse, the later parts change nothing |
| EndInterviewsRoute.ScoreOfJsonPart | frontend/app/api/end-interviews/route.ts:162-163 | a missing or falsy score, 0 included, becomes `null`; a truthy one goes through `parseFloat` |
| EndInterviewsRoute.NoJsonPartDefaults | frontend/app/api/end-interviews/route.ts:151-164 | without a JSON part the outro is the empty text and the score is `null` |
| EndInterviewsRoute.Answer | frontend/app/api/end-interviews/route.ts:178-182 | the answer has exactly the keys `outro`, `score` and `audio` |
| EndInterviewsRoute.ReplyResponse | frontend/app/api/end-interviews/route.ts:142-195 | the answer is 200 or 500, and 200 only for an ok reply declared `multipart/mixed` |
| EndInterviewsRoute.Handle | frontend/app/api/end-interviews/route.ts:70-140 | the service is called exactly when the checks pass; otherwise the checks' own answer is given |
| EndInterviewsRoute.SendsEmptyContext | frontend/app/api/end-interviews/route.ts:54-55 | the memory is never assigned, so the service always gets an empty question and model answer |
| EndInterviewsRoute.Route.constructor | frontend/app/api/end-interviews/route.ts:54-55 | the memory starts as two empty texts |
| EndInterviewsRoute.Route.Decode | frontend/app/api/end-interviews/route.ts:151-176 | the decoding loop gives what the fold over the parts gives |
| EndInterviewsRoute.Route.Post | frontend/app/api/end-interviews/route.ts:70-195 | the handler answers what the specification of a request prescribes |
| RoundTrip.EnvelopeClassified | ai/app.py:104-114 | cut at `--valecta`, an envelope has exactly one JSON part followed by one audio part |
| RoundTrip.InterviewDecodes | frontend/app/api/interview/route.ts:265-299 | the route's loop recovers the payload and the trimmed audio of an `/interview` envelope |
| RoundTrip.EndDecodes | frontend/app/api/end-interviews/route.ts:147-176 | the route's loop recovers the outro, the score and the trimmed audio of an `/end-interview` envelope |
| RoundTrip.InterviewPayloadRemembered | ai/app.py:106 | the question and model answer the service put in the payload are the ones the route remembers |
| RoundTrip.InterviewReplyRead | frontend/app/api/interview/route.ts:265-299 | an envelope from `/interview` is answered 200 with its payload and audio |
| RoundTrip.InterviewEndpointOnRouteForm | ai/app.py:72-114 | the form the route sends is accepted and answered with an envelope |
| RoundTrip.EnvelopeReplyDecoded | frontend/app/api/interview/route.ts:258-265 | an envelope arriving over HTTP goes to the multipart branch |
| RoundTrip.InterviewServiceReply | frontend/app/api/interview/route.ts:245-299 | the service's reply to the route's form is answered with the service's question, model answer, score and speech |
| RoundTrip.InterviewRoundTrip | frontend/app/api/interview/route.ts:190-299 | once the checks pass the route answers 200 with exactly what the service produced, and remembers the service's question and model answer |
| RoundTrip.EndPayloadRead | ai/app.py:224-228 | the outro and the score the service sent are what the route reads |
| RoundTrip.EndReplyRead | frontend/app/api/end-interviews/route.ts:146-182 | an envelope from `/end-interview` is answered 200 with the outro, the score and the audio |
| RoundTrip.EndEndpointOnRouteForm | ai/app.py:187-241 | the corrected endpoint accepts the route's form and answers with an envelope |
| RoundTrip.EndServiceReply | frontend/app/api/end-interviews/route.ts:125-182 | the corrected service's reply is answered with its outro, score and speech |
| RoundTrip.EndRoundTrip | frontend/app/api/end-interviews/route.ts:70-182 | wired to the corrected endpoint, the route answers 200 with the outro, the score and the outro's speech |
| RoundTrip.CrashAnswered | frontend/app/api/end-interviews/route.ts:142-144 | a Flask error page becomes a 500 naming its status text |
| RoundTrip.EndAsWrittenAlwaysFails | ai/app.py:204 | wired to the endpoint as written, every request that passes the route's checks is answered 500 |
| RoundTrip.AudioPlaysBack | frontend/app/api/interview/route.ts:281-290 | the audio played back is the bytes sent less white space at either end; none is extracted exactly when nothing is left |
| SaveRecording.LastIndexOf | frontend/app/api/save-recording/route.ts:22-23 | the position is the last one holding the character, or -1 |
| SaveRecording.MimeExtension | frontend/app/api/save-recording/route.ts:24-35 | an extension from the type is empty or a dot followed by a name without dots |
| SaveRecording.Extension | frontend/app/api/save-recording/route.ts:20-35 | a name with a dot gives its own final extension; a name without one gives the type's extension |
| SaveRecording.FileNameInjective | frontend/app/api/save-recording/route.ts:38 | two question numbers share a file name only when they are equal (two names can still reach one path: see TraversalOverwrites) |
| SaveRecording.Walk | frontend/app/api/save-recording/route.ts:48 | `path.join` of a normalised directory and any relative path gives a normalised path |
| SaveRecording.JoinPlainName | frontend/app/api/save-recording/route.ts:48 | a name without `/` that is not `.` or `..` is a file of the directory itself |
| SaveRecording.SeparateFiles | frontend/app/api/save-recording/route.ts:38-51 | a question number and extension without `/` give a file of the recordings directory, and different such numbers give different files |
| SaveRecording.StepBack | frontend/app/api/save-recording/route.ts:48 | `seg/../last` joins to the same path as `last` |
| SaveRecording.TraversalOverwrites | frontend/app/api/save-recording/route.ts:38-51 | the question number `x/../question_n` differs from `n` but is written to the same path, so it overwrites answer `n` |
| SaveRecording.StepsBackTwice | frontend/app/api/save-recording/route.ts:48 | `seg/../../last` under `dir/top` joins to `dir/last` |
| SaveRecording.TraversalEscapes | frontend/app/api/save-recording/route.ts:38-51 | the question number `x/../../y` is written to `public/y_response{ext}`, outside the recordings directory |
| SaveRecording.UploadFoundByInterview | frontend/app/api/save-recording/route.ts:20-38 | the file the session page uploads is saved under exactly the name `/api/interview` looks up |
| SaveRecording.NoFile | frontend/app/api/save-recording/route.ts:11-13 | a missing file is answered 400 |
| SaveRecording.Saved | frontend/app/api/save-recording/route.ts:55-59 | a saved file is answered 200 with its path under `/recordings` |
| SaveRecording.RecordingsDir.Save | frontend/app/api/save-recording/route.ts:7-59 | as written: a missing file gives 400 and writes nothing; otherwise the bytes replace what is at the path `path.join` makes of the directory and the file name, and nothing else changes |
| SaveRecording.RecordingsDir.constructor | frontend/app/api/save-recording/route.ts:41 | the directory is `public/recordings` under the working directory and is a normalised path |
| SaveRecording.RecordingsDir.SaveChecked | frontend/app/api/save-recording/route.ts:7-59 | as intended: a question number or extension holding `/` gives 400 and writes nothing; otherwise the bytes go to the file of that name inside the directory, and nothing else changes |
| InterviewSession.ChooseMime | frontend/app/candidate/interview/session/page.tsx:468-479 | the type is the first supported one of webm, ogg/opus and mp4, or the default exactly when none is supported |
| InterviewSession.Endpoint | frontend/app/candidate/interview/session/page.tsx:305-308 | turn 5, and only turn 5, goes to `/api/end-interviews` |
| InterviewSession.FirstMatch | frontend/app/candidate/interview/session/page.tsx:340-349 | the document found is the first for the user and the job, and none is found exactly when no document matches |
| InterviewSession.MarkResultsPending | frontend/app/candidate/interview/session/page.tsx:330-364 | the only document that can change is the first match, and it gets `results_pending` |
| InterviewSession.MarkTwiceIsMarkOnce | frontend/app/candidate/interview/session/page.tsx:330-364 | marking again changes nothing more |
| InterviewSession.AudioBytes | frontend/app/candidate/interview/session/page.tsx:366-374 | the byte-copy loop yields the decoded bytes, and nothing exactly when `atob` fails |
| InterviewSession.CopyBinary | frontend/app/candidate/interview/session/page.tsx:370-374 | the buffer ends up holding, at every index, the low byte of that character of the binary string |
| InterviewSession.EncodedAudioPlays | frontend/app/candidate/interview/session/page.tsx:366-375 | audio the server base64-encoded reaches the player byte for byte |
| InterviewSession.PressIgnoredWhenComplete | frontend/app/candidate/interview/session/page.tsx:586 | once the interview is complete a press does nothing |
| InterviewSession.PressStartsOnly | frontend/app/candidate/interview/session/page.tsx:589-592 | while not recording and with a stream, a press only starts recording |
| InterviewSession.PressSubmits | frontend/app/candidate/interview/session/page.tsx:594-624 | any other press stops the recorder and submits every captured chunk with the current turn, or nothing when no chunk was captured |
| InterviewSession.FailedSaveSkipsUpload | frontend/app/candidate/interview/session/page.tsx:641-649 | a failed save uploads nothing and only stops the spinner |
| InterviewSession.SavedClearsChunks | frontend/app/candidate/interview/session/page.tsx:633-640 | after a successful save the chunks are cleared, whatever the upload returns |
| InterviewSession.UploadFailureChangesNothing | frontend/app/candidate/interview/session/page.tsx:291-318 | with no job id or no usable reply, an upload changes nothing and returns nothing |
| InterviewSession.TurnAdvances | frontend/app/candidate/interview/session/page.tsx:409-437 | a reply to turns 0 to 4 counts the upload and moves the turn on by one, up to 5 |
| InterviewSession.FinalTurnCompletes | frontend/app/candidate/interview/session/page.tsx:324-406 | a reply to turn 5 completes the interview without moving the turn, and marks the application once |
| InterviewSession.UploadKeepsTurnBounds | frontend/app/candidate/interview/session/page.tsx:430-431 | an upload keeps the turn between 0 and 5 |
| InterviewSession.ActionsKeepValid | frontend/app/candidate/interview/session/page.tsx:584-679 | every action keeps the turn between 0 and 5 and the counters non-negative |
| InterviewSession.CycleAdvances | frontend/app/candidate/interview/session/page.tsx:584-640 | one full answer in turns 0 to 4 moves the turn on by one |
| InterviewSession.RunAdvances | frontend/app/candidate/interview/session/page.tsx:584-640 | `k` answers that stay below turn 5 move the turn on by `k` |
| InterviewSession.FiveAnswersAfterIntro | frontend/app/candidate/interview/session/page.tsx:192-199 | after the introduction, five answers end the interview |
| InterviewSession.SixAnswersWithoutIntro | frontend/app/candidate/interview/session/page.tsx:37 | when the introduction never ends, five answers do not end the interview and six do |
| InterviewSession.SecondAnswerWhileUploading | frontend/app/candidate/interview/session/page.tsx:586-625 | nothing stops a second answer from being submitted while the first is being saved |
| InterviewSession.AnswerDuringUploadLost | frontend/app/candidate/interview/session/page.tsx:586-640 | an answer started while an upload is pending loses the chunk it has captured when the upload clears the chunks, and a later press then submits nothing |
| InterviewSession.Session.constructor | frontend/app/candidate/interview/session/page.tsx:34-39 | the page starts at turn 0, with nothing recorded and nothing uploaded |
| InterviewSession.Session.StartRecording | frontend/app/candidate/interview/session/page.tsx:444-516 | starting stops any active recorder and, with a stream that has audio, begins a fresh recording in the chosen type |
| InterviewSession.Session.StopRecording | frontend/app/candidate/interview/session/page.tsx:518-538 | stopping ends the recorder and the recording flag, and does nothing without a recorder |
| InterviewSession.Session.DataAvailable | frontend/app/candidate/interview/session/page.tsx:488-495 | a non-empty chunk is appended, and an empty one ignored |
| InterviewSession.Session.IntroEnded | frontend/app/candidate/interview/session/page.tsx:192-199 | the end of the introduction shows the first question |
| InterviewSession.Session.Press | frontend/app/candidate/interview/session/page.tsx:584-631 | a press does what the specification of `answerAndNext` up to the save request says |
| InterviewSession.Session.Play | frontend/app/candidate/interview/session/page.tsx:366-428 | audio in a reply is decoded and played |
| InterviewSession.Session.UploadAnswer | frontend/app/candidate/interview/session/page.tsx:289-442 | an upload does what the specification of `uploadAnswer` says, store included |
| InterviewSession.Session.Finish | frontend/app/candidate/interview/session/page.tsx:324-406 | a turn-5 reply does what the specification of the final turn says |
| InterviewSession.Session.NextTurn | frontend/app/candidate/interview/session/page.tsx:409-437 | any other reply does what the specification of an ordinary turn says |
| InterviewSession.Session.SaveReplied | frontend/app/candidate/interview/session/page.tsx:625-631 | when the save request returns, the spinner stops for turns up to 5 and nothing else changes |
| InterviewSession.Session.Uploaded | frontend/app/candidate/interview/session/page.tsx:633-640 | after a successful save, the upload does what the specification of `uploadAnswer` says and then the chunks are cleared, store included |
| PathPredictor.OrField | frontend/app/candidate/path-predictor/page.tsx:154 | `a \|\| b` keeps a truthy `a` and falls back to `b` |
| PathPredictor.Fields | frontend/app/candidate/path-predictor/page.tsx:120 | the regex split gives at least one piece, no piece holds a separator, and a text starting with another character has a first piece starting with it |
| PathPredictor.FieldsKeepText | frontend/app/candidate/path-predictor/page.tsx:120 | the pieces put back together are the text without its separators |
| PathPredictor.FieldsUnique | frontend/app/candidate/path-predictor/page.tsx:120 | any cutting of a text at its maximal separator runs gives exactly the pieces of the split |
| PathPredictor.LongTrimmed | frontend/app/candidate/path-predictor/page.tsx:121-122 | every step kept is trimmed, has no separator and is longer than ten characters |
| PathPredictor.ToArray | frontend/app/candidate/path-predictor/page.tsx:115-124 | a falsy entry gives nothing; a list gives its non-empty texts in order, each as often as listed; a text gives at most three trimmed steps longer than ten characters without separators |
| PathPredictor.NonEmpty | frontend/app/candidate/path-predictor/page.tsx:117 | the non-empty entries, in order, each as often as listed, and nothing else |
| PathPredictor.Refill | frontend/app/candidate/path-predictor/page.tsx:131-147 | a list with a step of fifteen characters or more is kept, and any other list is replaced by the defaults |
| PathPredictor.SectionsNeverEmpty | frontend/app/candidate/path-predictor/page.tsx:131-147 | after the refill a section is never empty and always has a long step |
| PathPredictor.Position | frontend/app/candidate/path-predictor/page.tsx:150-151 | a card is placed between 20 and 79 across and between 25 and 74 down |
| PathPredictor.MatchPercentage | frontend/app/candidate/path-predictor/page.tsx:174 | the match lies between 70 and 94, so the floor of 60 is never used |
| PathPredictor.Look | frontend/app/candidate/path-predictor/page.tsx:177-178 | the icon and the colour come from the fixed lists |
| PathPredictor.LookCycles | frontend/app/candidate/path-predictor/page.tsx:71-83 | cards ten places apart look alike, and neighbouring cards differ in colour |
| PathPredictor.DefaultSkills | frontend/app/candidate/path-predictor/page.tsx:158-164 | four default skills, chosen by the first of "data", "develop" and "manage" in the title |
| PathPredictor.Skills | frontend/app/candidate/path-predictor/page.tsx:154-164 | one to four skills: a prefix of those taken from the roadmap, or the title's defaults when none are |
| PathPredictor.Title | frontend/app/candidate/path-predictor/page.tsx:167 | a non-empty career path is the title; the empty one gives `Career Path {i+1}` |
| PathPredictor.Card | frontend/app/candidate/path-predictor/page.tsx:166-182 | a card has its title, a reason, non-empty step lists, a bounded place and match, and one to four skills |
| PathPredictor.CardAsWritten | frontend/app/candidate/path-predictor/page.tsx:154-182 | a card fails exactly when the recommendation has no career path |
| PathPredictor.CardFor | frontend/app/candidate/path-predictor/page.tsx:154-182 | with a career path the intended card is the card the code as written makes; without one it gets the fallback title `Career Path {i+1}` |
| PathPredictor.MapOrFail | frontend/app/candidate/path-predictor/page.tsx:108-109 | a mapping that succeeds gives one card per recommendation |
| PathPredictor.MapIndexed | frontend/app/candidate/path-predictor/page.tsx:108-109 | one card per recommendation, in order |
| PathPredictor.MapOrFailSucceeds | frontend/app/candidate/path-predictor/page.tsx:108-109 | a mapping that never throws gives what the mapping without failure gives |
| PathPredictor.MapOrFailFails | frontend/app/candidate/path-predictor/page.tsx:108-109 | one throwing element makes the whole mapping throw |
| PathPredictor.MapAsWritten | frontend/app/candidate/path-predictor/page.tsx:107-185 | the mapping as written, when it succeeds, gives one card per recommendation |
| PathPredictor.MapCareerPaths | frontend/app/candidate/path-predictor/page.tsx:107-185 | the intended mapping gives one card per recommendation, in order |
| PathPredictor.AsWrittenAgrees | frontend/app/candidate/path-predictor/page.tsx:107-185 | with every career path present both mappings agree; with one missing the one as written fails |
| PathPredictor.MissingCareerPath | frontend/app/candidate/path-predictor/page.tsx:158-167 | a recommendation without a career path makes the page fail, where the fallback title was intended |
| PathPredictor.Analyze | frontend/app/candidate/path-predictor/page.tsx:241-256 | an absent or empty recommendation list is the error; otherwise the page fails exactly when the mapping as written fails (a missing career path), with its error, and succeeds with the intended cards and the cross-industry text or its default |
| Sequences.Filter | frontend/app/candidate/jobs/page.tsx:101 | every element kept is in the list and passes the filter, and none is added |
| Sequences.FilterKeeps | frontend/app/candidate/jobs/page.tsx:101 | the kept elements are a subsequence of the list, each passing element as often as listed and no other |
| Sequences.KeepsAccepted | frontend/app/candidate/jobs/page.tsx:101 | every passing element of the list is kept |
| Sequences.FilterAll | frontend/app/candidate/jobs/page.tsx:101 | a filter every element passes keeps the list as it is |
| Jobs.ActiveJobs | frontend/app/candidate/jobs/page.tsx:82-84 | the documents with status "active", in order, each as often as listed, and nothing else |
| Jobs.Filtered | frontend/app/candidate/jobs/page.tsx:101-178 | the jobs that match every filter, in order, each as often as listed, and nothing else |
| Jobs.EmptyIncluded | frontend/app/candidate/jobs/page.tsx:103-109 | an empty query occurs in every text |
| Jobs.MatchesSearch | frontend/app/candidate/jobs/page.tsx:103-109 | an empty query matches every job |
| Jobs.NoFilterKeepsAll | frontend/app/candidate/jobs/page.tsx:101-178 | an empty query with "all" everywhere keeps every job |
| Jobs.MatchesLocation | frontend/app/candidate/jobs/page.tsx:112-118 | a job passes exactly when the choice is "all" or its location mentions the choice: the extra "remote" clause never changes the outcome |
| Jobs.MatchesSalary | frontend/app/candidate/jobs/page.tsx:133-169 | "all" and any unknown range pass every job |
| Jobs.BucketEdges | frontend/app/candidate/jobs/page.tsx:133-169 | a salary mentioning 80, 120 or 160 matches both neighbouring buckets |
| Jobs.SortKey | frontend/app/candidate/jobs/page.tsx:181-206 | "match" and "recent" both sort by posting time, "applications" by application count, "salary" by the collation of the salary text |
| Jobs.SortDescending | frontend/app/candidate/jobs/page.tsx:181-206 | the array ends up ordered by the key, largest first, as a permutation of what it held |
| Jobs.Insert | frontend/app/candidate/jobs/page.tsx:181-206 | one insertion step extends the ordered prefix and permutes the array |
| Jobs.Refresh | frontend/app/candidate/jobs/page.tsx:100-209 | the jobs shown are a permutation of the filtered ones, ordered for a known sort and untouched otherwise |
| Jobs.CeilDiv | frontend/app/candidate/jobs/page.tsx:226-227 | the result is the least multiple count that covers the number |
| Jobs.DaysBetween | frontend/app/candidate/jobs/page.tsx:220-222 | the least whole number of days covering the time between the dates, either way round |
| Jobs.AgeOf | frontend/app/candidate/jobs/page.tsx:224-227 | one day reads as "1 day"; under a week as days; under thirty days as one to five weeks; else as months, each rounded up |
| Jobs.Render | frontend/app/candidate/jobs/page.tsx:224-227 | the text reads "1 day ago" exactly for a single day; any other age starts with its digits |
| Jobs.FormatDate | frontend/app/candidate/jobs/page.tsx:218-228 | a date reads "1 day ago" exactly when the rounded-up day count is 1 |
| Jobs.AgeMonotone | frontend/app/candidate/jobs/page.tsx:224-227 | a larger day count never reads as more recent |
| Dashboard.StatusColor | frontend/app/candidate/dashboard/page.tsx:149-165 | an unknown status has the colour of "applied" |
| Dashboard.StatusText | frontend/app/candidate/dashboard/page.tsx:168-185 | any status outside the six known ones reads "APPLIED" |
| Dashboard.ResultsPendingShowsApplied | frontend/app/candidate/dashboard/page.tsx:168-185 | the `results_pending` status written at the end of an interview shows as a new application |
| Dashboard.ApplicationsOf | frontend/app/candidate/dashboard/page.tsx:114-117 | the applications of the cards, in order |
| Dashboard.WithJobs | frontend/app/candidate/dashboard/page.tsx:86-117 | exactly the applications whose job lookup succeeds are shown, with that job's title and company |
| Dashboard.ShownInOrder | frontend/app/candidate/dashboard/page.tsx:86-117 | the applications shown are exactly the filter of the list by a successful job lookup: in order, each as often as listed |
| Dashboard.AllJobsThere | frontend/app/candidate/dashboard/page.tsx:86-117 | when every job is there, every application is shown, in order |
| Dashboard.FetchApplications | frontend/app/candidate/dashboard/page.tsx:65-117 | nothing is fetched exactly when there is no user; a failed listing shows nothing |
| JobCreate.With | frontend/app/employer/jobs/create/page.tsx:69-71 | the named field takes the value and every other field keeps its own |
| JobCreate.Without | frontend/app/employer/jobs/create/page.tsx:65-67 | exactly the entries different from the one removed remain |
| JobCreate.WithoutSplices | frontend/app/employer/jobs/create/page.tsx:65-67 | in a list without duplicates, removing an entry leaves the others in order |
| JobCreate.WithoutAbsent | frontend/app/employer/jobs/create/page.tsx:65-67 | removing an entry that is not there changes nothing |
| JobCreate.WithoutKeeps | frontend/app/employer/jobs/create/page.tsx:65-67 | removing keeps the list trimmed, non-empty and free of duplicates |
| JobCreate.TrimIsTrimmed | frontend/app/employer/jobs/create/page.tsx:58-63 | a trimmed text has no white space at either end and trims to itself |
| JobCreate.Added | frontend/app/employer/jobs/create/page.tsx:58-63 | adding keeps the list trimmed, non-empty and free of duplicates |
| JobCreate.AddedAppends | frontend/app/employer/jobs/create/page.tsx:58-63 | a new non-empty trimmed entry is appended and the box cleared; an empty or listed one changes nothing |
| JobCreate.AddIdempotent | frontend/app/employer/jobs/create/page.tsx:58-63 | adding the same entry twice leaves the list as one add did |
| JobCreate.AppendKeeps | frontend/app/employer/jobs/create/page.tsx:58-63 | appending a new trimmed non-empty entry keeps the list valid |
| JobCreate.Editor.constructor | frontend/app/employer/jobs/create/page.tsx:18-32 | the form starts empty with its two preset choices and no skills |
| JobCreate.Editor.LoadEmployer | frontend/app/employer/jobs/create/page.tsx:37-56 | a missing name or company gets its default |
| JobCreate.Editor.SetNewSkill | frontend/app/employer/jobs/create/page.tsx:58-63 | typing changes only the skill box |
| JobCreate.Editor.AddSkill | frontend/app/employer/jobs/create/page.tsx:58-63 | the list and the box become what the add prescribes, and the list stays valid |
| JobCreate.Editor.RemoveSkill | frontend/app/employer/jobs/create/page.tsx:65-67 | the entry is gone, every other entry stays, and the list stays valid |
| JobCreate.Editor.InputChange | frontend/app/employer/jobs/create/page.tsx:69-71 | only the named field changes |
| JobCreate.Editor.Post | frontend/app/employer/jobs/create/page.tsx:73-107 | a blank role is refused first, then a blank description; otherwise the stored record is the form trimmed, with "Not specified" and "Negotiable" for a blank location and salary, the skills and the employer data, status "active" and no applications |
| JobCreate.Document | frontend/app/employer/jobs/create/page.tsx:88-107 | the posted record has the trimmed role, description and requirements, a never-blank location and salary, the choices and skills as given, the employer data, status "active" and no applications |
| Plagiarism.NonSpaceRun | ai/plagiarism/final.py:18 | the run is the longest prefix without white space |
| Plagiarism.RemoveLinks | ai/plagiarism/final.py:18 | removing links never lengthens the text |
| Plagiarism.SpaceSplits | ai/plagiarism/final.py:18 | a white-space character is kept and the text on either side is cleaned on its own |
| Plagiarism.WordKept | ai/plagiarism/final.py:18 | a word without `http` followed by a non-space character is kept whole |
| Plagiarism.WordCut | ai/plagiarism/final.py:18 | a word is cut where its first link starts |
| Plagiarism.LinksGone | ai/plagiarism/final.py:18 | no `http` followed by a non-space character is left |
| Plagiarism.NoLinkNoRemoval | ai/plagiarism/final.py:18 | a text without `http` is left as it is |
| Plagiarism.CleanChar | ai/plagiarism/final.py:19-20 | each character becomes a lower-case letter or a space |
| Plagiarism.CleanText | ai/plagiarism/final.py:17-21 | the cleaned text has the length of the link-free text and holds only `a`-`z` and spaces |
| Plagiarism.CleanTextNotIdempotent | ai/plagiarism/final.py:17-21 | a text starting `HTTP` and then an upper-case letter gets shorter when cleaned a second time |
| Plagiarism.UrlRun | ai/plagiarism/final.py:53 | the run is the longest prefix without white space or commas |
| Plagiarism.SchemeLength | ai/plagiarism/final.py:53 | the scheme is `https://` or `http://`, or absent |
| Plagiarism.FindLinks | ai/plagiarism/final.py:53-54 | every match is a scheme followed by a non-empty run of URL characters |
| Plagiarism.SeparatorSplits | ai/plagiarism/final.py:53 | white space or a comma separates the search: the text on either side is searched on its own |
| Plagiarism.WordWithoutLink | ai/plagiarism/final.py:53 | a word of URL characters without `http://` or `https://` yields no link |
| Plagiarism.WordLink | ai/plagiarism/final.py:53 | a word of URL characters yields exactly one link, from its first scheme to the end of the word |
| Plagiarism.ParseLink | ai/plagiarism/final.py:76-78 | a parsed link has a host with balanced brackets and no `/`, `?` or `#`, a path that starts with `/` (or is empty) and holds no `?` or `#`, and host and path together follow the scheme |
| Plagiarism.AllowedParsed | ai/plagiarism/final.py:78-92 | an allowed link has its host, less a leading `www.`, on the list; a LinkedIn link whose path never mentions `/learning` is refused |
| Plagiarism.WwwIgnored | ai/plagiarism/final.py:78-84 | a leading `www.` in any case does not change whether a host is allowed |
| Plagiarism.FilterLinks | ai/plagiarism/final.py:74-96 | the loop keeps exactly the links the rule accepts, in order |
| Plagiarism.ExtractUrls | ai/plagiarism/final.py:52-96 | returns exactly the allowed links found in the text, in order, each one a link |
| Plagiarism.CertResult | ai/plagiarism/final.py:148-160 | a missing page is False, a blank one None and any other True |
| Plagiarism.CertResults | ai/plagiarism/final.py:147-160 | one result per URL, in order |
| Plagiarism.CheckCertificates | ai/plagiarism/final.py:147-160 | the loop gives the result of each URL, in order |
| Plagiarism.Decide | ai/plagiarism/final.py:162-166 | the verdict passes exactly when the resume is unique and every certificate is True |
| Plagiarism.NoCertificatesPass | ai/plagiarism/final.py:162-166 | a unique resume with no certificates passes |
| Plagiarism.PassMeansEveryPageRead | ai/plagiarism/final.py:147-166 | a pass means every certificate page was fetched and was not blank |
| Plagiarism.ResumeText | ai/plagiarism/final.py:43-49 | the text is the PDF or the DOCX extraction, and any failure is the unsupported-format error |
| Plagiarism.PlagiarismChecker | ai/plagiarism/final.py:130-166 | a missing file gives the tuple; an unsupported path gives its error; otherwise the verdict over the URLs found |
| Plagiarism.ResumeReview | ai/app.py:22-55 | 400 exactly when `filedata` or `job_description` is missing; otherwise 200 exactly when decoding and screening both succeed, "Candidate Status" with "True" exactly when both checks are truthy; a decoding failure, then a screening failure, gives 500 with its message |
| Plagiarism.MissingFileCountsAsPass | ai/app.py:46-52 | the tuple returned for a missing file is truthy, so it would count as a pass |

## Left out

- The OpenAI services are opaque parameters: transcription, the chat that asks and reviews, and speech. So
  are the Appwrite store and the browser's media recorder.
- `JSON.parse` is a parameter. The round trips assume only that it reads back what `json.dumps` wrote.
  Malformed JSON in a request body, which Flask answers with 500, is not modelled.
- `speech_to_text` in ai/interview.py:19-20 opens its argument as an audio file. `ai_review` and `ai_client`
  call it on their last argument, and ai/app.py:84, 86 and 201 pass them the transcript text itself. As
  written, every real `/interview` and `/end-interview` request raises there, and Flask answers 500. The
  review and chat services here take the transcript text, so RoundTrip.InterviewRoundTrip,
  InterviewEndpointOnRouteForm and EndRoundTrip assume services that accept it.
- PathPredictor.Analyze: starts from the parsed reply value. A reply that is not ok throws its `error`, its
  `details` or "Failed to get prediction" (page.tsx:209-212). A `value` that is absent or neither an object
  nor a string throws "No career path data received from AI service" (page.tsx:224-240). Neither path is
  modelled.
- JsonValue.Get: takes the first binding of a key. `JSON.parse` keeps the last of duplicate keys. The parser
  is a parameter, and the objects the model reads are taken to hold each key once.
- Http.ThrownMessage: a `JSON.parse` failure is named by its error, `SyntaxError`. The engine's message text
  that the route returns in `details` is not modelled.
- JSON numbers are integers. The score's `parseFloat` is a parameter, and floating point is not modelled.
- The awaits inside `uploadAnswer` form one event: the fetch, `res.json()`, `listDocuments` and
  `updateDocument`. The save's `saveResponse.json()` is part of the event that ends the upload. Timers,
  toasts, redirects, audio playback and the final chunk arriving after `stop()` are left out.
- `mkdirSync` and write failures in the save route are not modelled. `path.join` follows POSIX path rules.
  A question number that names a missing subdirectory makes `writeFileSync` fail with 500; the model
  writes the path anyway.
- Texts are sequences of characters. JavaScript's UTF-16 code units, Python's code points and surrogate
  pairs are not told apart. Lengths, indices and the latin-1 "binary" strings are counted in characters.
- MIME types equal to `Object.prototype` keys are not modelled.
- Case folding is ASCII only. This covers `toLowerCase`, Python's `.lower()` and `urlparse`'s host.
- The multipart round trips assume the audio contains neither the delimiter nor `application/json`, and that
  the file name is plain. They also assume the serialised JSON payload never contains `--valecta`
  (RoundTrip.QuietPayload). The audio also loses white space at either end, as the route's `trim` does.
- Split: its own contract does not fix where the pieces are cut. JsText.SplitCuts states the leftmost cuts.
- Fields: its own contract does not fix where the pieces are cut. PathPredictor.FieldsUnique states that the
  cuts are exactly the maximal separator runs.
- RemoveLinks: its own contract is a length bound. Plagiarism.SpaceSplits, WordKept and WordCut state what
  is kept and what is cut.
- FindLinks: its own contract gives the shape of each link. Plagiarism.SeparatorSplits, WordWithoutLink and
  WordLink state that every match is found, left to right.
- WithJobs: its own contract gives membership. Dashboard.ShownInOrder states order and multiplicity.
- PathPredictor.Refill: the in-place refill of the step lists (`length = 0`, then `push`) is modelled as
  returning the new list.
- Jobs.SortDescending: the stability of `Array.sort` is not stated.
- Jobs.SortKey: `localeCompare` is a `collate` parameter.
- Dates are integer millisecond timestamps, `new Date` parsing is left out, and `postedDate` is a parameter.
- The redirect when the employer's data cannot be read is left out.
- TF-IDF similarity is a `similarity` parameter returning the resume's verdict. An exception in it counts as
  undetermined, as the source's `except` does.
- `urlparse` splits the path at `?` and `#` only. Its `;params` split and the newer checks of bracketed hosts
  are not modelled.
- Plagiarism.CertResult: the certificate branch of `check_similarity` always reports verified, so its
  similarity is not modelled.
- The page fetch is a parameter. The tag stripping, the 1000-character cut and the network errors are
  inside it.
- The request body of `resume_review` is an object of strings. Base64 decoding is a parameter.
- `skills_extract`, `check_with_jd` and PDF and DOCX text extraction are parameters.
- The proxy-only routes are left out: start-interviews, fetch-resume-job, path-predict and the GET
  end-interview route. Their job-description builders copy the one modelled here.
- `extractFromRawText` and the random progress bar of the path predictor are left out.
- The auth pages, the permission page and presentational components are left out.
- `questionCount > 5` in the guard of `answerAndNext` is never true, since the turn stays between 0 and 5
  (InterviewSession.ActionsKeepValid).
- `formatDate` on a date equal to now reads "0 days ago".
- Observations the model proves:
  - InterviewSession.SecondAnswerWhileUploading: nothing stops a second answer while the first is being
    saved.
  - InterviewSession.SixAnswersWithoutIntro: when the introduction's audio never ends, the interview needs
    six answers.
  - Jobs.BucketEdges: the salary buckets overlap at 80, 120 and 160.
  - Jobs.MatchesLocation: the "remote" clause is redundant.
  - InterviewSession.AnswerDuringUploadLost: an answer begun during an upload loses its captured chunk
    when the upload clears the chunks.
  - Plagiarism.CleanTextNotIdempotent: `clean_text` is not idempotent. `HTTPS://x` lower-cases into a link
    that a second pass removes.

## Findings

| source | as written | input that shows it | evidently intended | confidence | as-written member | corrected member |
|---|---|---|---|---|---|---|
| ai/app.py:204 | calls `end_interview(job_description, human_answer)`, but ai/interview.py:55 defines `end_interview()` with no parameters | any form with `human_answer` and `job_description`: the call raises `TypeError` and Flask answers 500 | the outro is produced for the job and the answer, and sent back in the envelope | not executed | Backend.EndInterviewAsWritten, RoundTrip.EndAsWrittenAlwaysFails | Backend.EndInterview, RoundTrip.EndRoundTrip |
| frontend/app/api/save-recording/route.ts:48 | `path.join` joins the file name built from the unchecked `questionNumber` field, so `..` segments move the file | the question number `x/../question_1` overwrites answer 1; `x/../../y` writes `public/y_response.webm` | each answer is stored as its own file inside `public/recordings` | not executed | SaveRecording.TraversalOverwrites, SaveRecording.TraversalEscapes, SaveRecording.RecordingsDir.Save | SaveRecording.RecordingsDir.SaveChecked, SaveRecording.SeparateFiles |
| frontend/app/candidate/path-predictor/page.tsx:158 | `rec.career_path.toLowerCase()` runs before the title fallback, so a missing career path throws | one recommendation with no `career_path` | the card gets the title `Career Path 1` and the general skills | not executed | PathPredictor.MapAsWritten, PathPredictor.MissingCareerPath | PathPredictor.MapCareerPaths, PathPredictor.AsWrittenAgrees |
