/** The candidate's interview page: one button toggles between starting a
    recording and submitting it. A submission is saved, then sent to
    `/api/interview` (turns 0 to 4) or `/api/end-interviews` (turn 5), and
    the reply moves the turn on. Each `await` splits an action: `Press` is
    what runs before the save request goes out, `SaveReplied` what runs
    when the save's reply comes back, and `Uploaded` what runs when the
    answer's upload ends, so other presses can come in between. */
module InterviewSession {
  import opened Wrappers
  import opened Latin1
  import opened JsonValue
  import Base64

  /** Recorded audio: its bytes and its MIME type (`""` when unknown). */
  datatype Blob = Blob(bytes: seq<byte>, mime: string)

  /** An answer on its way to the server: the turn it was recorded in and
      the recording. */
  datatype Submission = Submission(questionNum: int, recording: Blob)

  /** A document of the applications collection. */
  datatype Application = Application(id: string, userId: string, jobId: string, status: string)

  /** What the page is given: the `jobId` query parameter, the signed-in
      user, the number of audio tracks of the camera stream (`None` when
      there is no stream) and `MediaRecorder.isTypeSupported`. */
  datatype Env = Env(jobId: Option<string>, userId: Option<string>, audioTracks: Option<nat>, supported: string -> bool)

  /** The page's state: the counters and flags, the active recorder (its
      MIME type, `""` for the browser's default), the recorded chunks, the
      text shown as the current question and the audio handed to the
      player. */
  datatype Page = Page(
    questionCount: int, uploadsCount: int,
    isRecording: bool, interviewComplete: bool, uploading: bool,
    recorder: Option<string>, chunks: seq<Blob>,
    questionText: Json, played: seq<seq<byte>>)

  const Initial: Page := Page(0, 0, false, false, false, None, [], JNull, [])

  /** What every reachable state satisfies. */
  predicate ValidPage(v: Page)
  {
    0 <= v.questionCount <= 5 && v.uploadsCount >= 0 && (v.isRecording <==> v.recorder.Some?)
  }

  /** The recording formats in order of preference. */
  const Preferred: seq<string> := ["audio/webm", "audio/ogg;codecs=opus", "audio/mp4"]

  /** The first supported preferred format, `""` (the default) when none is. */
  function ChooseMime(supported: string -> bool): (r: string)
    ensures r == "" <==> forall i :: 0 <= i < |Preferred| ==> !supported(Preferred[i])
    ensures r != "" ==> exists i :: 0 <= i < |Preferred| && r == Preferred[i] && supported(r)
                                    && forall j :: 0 <= j < i ==> !supported(Preferred[j])
  {
    if supported(Preferred[0]) then Preferred[0]
    else if supported(Preferred[1]) then Preferred[1]
    else if supported(Preferred[2]) then Preferred[2]
    else ""
  }

  /** `startRecording`: any active recorder is stopped; without an audio
      track nothing starts; otherwise a new recorder starts with no chunks. */
  function StartSpec(v: Page, env: Env): Page
  {
    var v1 := v.(recorder := None);
    if env.audioTracks.None? || env.audioTracks.value == 0 then v1
    else v1.(recorder := Some(ChooseMime(env.supported)), chunks := [], isRecording := true)
  }

  /** `stopRecording`: without a recorder nothing happens; otherwise it is
      dropped and the page stops showing a recording. */
  function StopSpec(v: Page): Page
  {
    if v.recorder.None? then v else v.(recorder := None, isRecording := false)
  }

  /** A chunk delivered by the recorder; empty chunks are ignored. */
  function DataSpec(v: Page, chunk: Blob): Page
  {
    if |chunk.bytes| > 0 then v.(chunks := v.chunks + [chunk]) else v
  }

  /** The end of the introduction's audio: the first question is shown. */
  function IntroEndedSpec(v: Page): Page
  {
    v.(questionText := JStr("Tell me about your background and experience."), questionCount := 1)
  }

  function Concat(chunks: seq<Blob>): seq<byte>
  {
    if |chunks| == 0 then [] else chunks[0].bytes + Concat(chunks[1..])
  }

  /** The recording made of the chunks: their bytes in order, typed as the
      first chunk or `audio/webm`. */
  function Recording(chunks: seq<Blob>): Blob
    requires |chunks| > 0
  {
    Blob(Concat(chunks), if chunks[0].mime != "" then chunks[0].mime else "audio/webm")
  }

  /** `answerAndNext` up to the save request: a no-op once the interview is
      complete; with no recording and a stream, it only starts one;
      otherwise it stops the recorder and, when chunks were captured,
      submits them for the current turn. */
  function PressSpec(v: Page, env: Env): (Page, Option<Submission>)
  {
    if v.interviewComplete || v.questionCount > 5 then (v, None)
    else if !v.isRecording && env.audioTracks.Some? then (StartSpec(v, env), None)
    else
      var s := StopSpec(v);
      if |s.chunks| == 0 then (s, None)
      else (s.(uploading := if v.questionCount <= 5 then true else s.uploading),
            Some(Submission(v.questionCount, Recording(s.chunks))))
  }

  /** The endpoint a turn is sent to. */
  function Endpoint(questionNum: int): (url: string)
    ensures url == "/api/end-interviews" <==> questionNum == 5
  {
    if questionNum == 5 then "/api/end-interviews" else "/api/interview"
  }

  /** The index of the first application of the user for the job. */
  function FirstMatch(docs: seq<Application>, userId: string, jobId: string): (r: Option<nat>)
    ensures r.Some? ==> r.value < |docs| && docs[r.value].userId == userId && docs[r.value].jobId == jobId
    ensures r.Some? ==> forall i :: 0 <= i < r.value ==> !(docs[i].userId == userId && docs[i].jobId == jobId)
    ensures r.None? ==> forall i :: 0 <= i < |docs| ==> !(docs[i].userId == userId && docs[i].jobId == jobId)
    decreases |docs|
  {
    if |docs| == 0 then None
    else if docs[0].userId == userId && docs[0].jobId == jobId then Some(0)
    else
      var r := FirstMatch(docs[1..], userId, jobId);
      if r.None? then None else Some(r.value + 1)
  }

  /** The `results_pending` update: the first matching document's status,
      when the store answers; any failure is swallowed. */
  function MarkResultsPending(docs: seq<Application>, userId: string, jobId: string, reachable: bool): (r: seq<Application>)
    ensures |r| == |docs|
    ensures forall i :: 0 <= i < |docs| && r[i] != docs[i] ==>
      reachable && FirstMatch(docs, userId, jobId) == Some(i) && r[i] == docs[i].(status := "results_pending")
  {
    if !reachable then docs
    else
      var i := FirstMatch(docs, userId, jobId);
      if i.None? then docs else docs[i.value := docs[i.value].(status := "results_pending")]
  }

  /** Audio in a reply, decoded from base64 and handed to the player; text
      `atob` refuses is dropped. Nothing else on the page changes. */
  function PlaySpec(v: Page, audio: Option<Json>): Page
  {
    v.(played := v.played + Played(audio))
  }

  /** The audio a reply hands to the player: none, or the decoded bytes. */
  function Played(audio: Option<Json>): (r: seq<seq<byte>>)
    ensures |r| <= 1
    ensures |r| == 1 <==> Present(audio) && Base64.Atob(ToJsString(audio.value)).Some?
  {
    if !Present(audio) then []
    else
      var binary := Base64.Atob(ToJsString(audio.value));
      if binary.None? then [] else [FromBinary(binary.value)]
  }

  /** `uploadAnswer`: the reply to the turn's endpoint (`None` for a failed
      request, a non-ok status or a body that is not JSON). Without a job
      id or a usable reply nothing changes. Turn 5 completes the interview
      and marks the application; any other turn counts the upload, moves
      the turn on (at most to 5) and shows a truthy new question. */
  function UploadSpec(v: Page, env: Env, questionNum: int, post: string -> Option<Json>,
                      docs: seq<Application>, reachable: bool): (Page, seq<Application>, Option<Json>)
  {
    if env.jobId.None? || env.jobId.value == "" then (v, docs, None)
    else
      var reply := post(Endpoint(questionNum));
      if reply.None? || reply.value == JNull then (v, docs, None)
      else if questionNum == 5 then
        var (v1, docs1) := FinalSpec(v, env, reply.value, docs, reachable);
        (v1, docs1, reply)
      else (TurnSpec(v, questionNum, reply.value), docs, reply)
  }

  /** A reply to turn 5: the outro (or a default) is shown, the interview is
      complete, the application is marked when there is a user, and the
      audio is played. */
  function FinalSpec(v: Page, env: Env, j: Json, docs: seq<Application>, reachable: bool): (Page, seq<Application>)
    requires env.jobId.Some? && j != JNull
  {
    var outro := Member(j, "outro").value;
    var v1 := v.(questionText := if Present(outro) then outro.value else JStr("Interview complete. Thank you!"),
                 interviewComplete := true);
    var docs1 := if env.userId.Some? && env.userId.value != "" then MarkResultsPending(docs, env.userId.value, env.jobId.value, reachable) else docs;
    (PlaySpec(v1, Member(j, "audio").value), docs1)
  }

  /** A reply to any other turn: the audio is played, the upload counted,
      the turn moved on (at most to 5) and a truthy question shown. */
  function TurnSpec(v: Page, questionNum: int, j: Json): Page
    requires j != JNull
  {
    var v1 := PlaySpec(v, Member(j, "audio").value);
    var v2 := v1.(uploadsCount := v1.uploadsCount + 1,
                  questionCount := if v1.questionCount < 5 then v1.questionCount + 1 else v1.questionCount);
    var q := Member(j, "question").value;
    if questionNum < 5 && Present(q) then v2.(questionText := q.value) else v2
  }

  /** `answerAndNext` when the save request comes back: the spinner stops
      (for turns up to 5), whatever the reply. */
  function SaveRepliedSpec(v: Page, sub: Submission): Page
  {
    if sub.questionNum <= 5 then v.(uploading := false) else v
  }

  /** `answerAndNext` when `uploadAnswer` has finished, after a successful
      save: the upload's effects, then the chunks are cleared, whether or
      not the upload succeeded. */
  function UploadedSpec(v: Page, env: Env, sub: Submission, post: string -> Option<Json>,
                        docs: seq<Application>, reachable: bool): (Page, seq<Application>)
  {
    var (v1, docs1, _) := UploadSpec(v, env, sub.questionNum, post, docs, reachable);
    (v1.(chunks := []), docs1)
  }

  /** The rest of `answerAndNext` with no other event in between: after a
      failed save only the spinner stops; after a successful one the answer
      is also uploaded. */
  function SettleSpec(v: Page, env: Env, sub: Submission, saved: bool, post: string -> Option<Json>,
                      docs: seq<Application>, reachable: bool): (Page, seq<Application>)
  {
    var v1 := SaveRepliedSpec(v, sub);
    if !saved then (v1, docs) else UploadedSpec(v1, env, sub, post, docs, reachable)
  }

  /** The bytes of a base64 text, copied one by one into a fresh buffer. */
  method AudioBytes(b64: string) returns (bytes: Option<seq<byte>>)
    ensures bytes.None? <==> Base64.Atob(b64).None?
    ensures bytes.Some? ==> bytes.value == FromBinary(Base64.Atob(b64).value)
  {
    var binary := Base64.Atob(b64);
    if binary.None? {
      return None;
    }
    var copied := CopyBinary(binary.value);
    return Some(copied);
  }

  /** The loop that fills the `Uint8Array` from the binary string. */
  method CopyBinary(text: string) returns (bytes: seq<byte>)
    ensures bytes == FromBinary(text)
  {
    var buffer := new byte[|text|];
    for i := 0 to |text|
      invariant forall k :: 0 <= k < i ==> buffer[k] == (text[k] as int) % 256
    {
      buffer[i] := (text[i] as int) % 256;
    }
    assert buffer[..] == FromBinary(text);
    return buffer[..];
  }

  /** Once the interview is complete a press does nothing. */
  lemma PressIgnoredWhenComplete(v: Page, env: Env)
    requires v.interviewComplete || v.questionCount > 5
    ensures PressSpec(v, env) == (v, None)
  {
  }

  /** Without a recording and with a stream, a press only starts recording:
      nothing is submitted and no counter moves. */
  lemma PressStartsOnly(v: Page, env: Env)
    requires !v.interviewComplete && v.questionCount <= 5 && !v.isRecording && env.audioTracks.Some?
    ensures var (v1, sub) := PressSpec(v, env);
      && sub.None? && v1.questionCount == v.questionCount && v1.uploadsCount == v.uploadsCount
      && v1.uploading == v.uploading
      && (env.audioTracks.value > 0 ==> v1.isRecording && v1.chunks == [])
  {
  }

  /** A press that submits stops the recorder and submits every captured
      byte for the current turn; a press with no chunks submits nothing and
      moves no counter. */
  lemma PressSubmits(v: Page, env: Env)
    requires !v.interviewComplete && v.questionCount <= 5 && (v.isRecording || env.audioTracks.None?)
    ensures var (v1, sub) := PressSpec(v, env);
      && v1.recorder.None? && v1.questionCount == v.questionCount && v1.uploadsCount == v.uploadsCount
      && (sub.Some? <==> |v.chunks| > 0)
      && (sub.Some? ==> sub.value.questionNum == v.questionCount && sub.value.recording.bytes == Concat(v.chunks)
                        && v1.uploading)
  {
  }

  /** A failed save uploads nothing: only the spinner stops. */
  lemma FailedSaveSkipsUpload(v: Page, env: Env, sub: Submission, post: string -> Option<Json>, docs: seq<Application>, reachable: bool)
    requires 0 <= sub.questionNum <= 5
    ensures SettleSpec(v, env, sub, false, post, docs, reachable) == (v.(uploading := false), docs)
  {
  }

  /** After a successful save the chunks are cleared, whatever the upload
      gives, and the page shows no upload in progress. */
  lemma SavedClearsChunks(v: Page, env: Env, sub: Submission, post: string -> Option<Json>, docs: seq<Application>, reachable: bool)
    requires 0 <= sub.questionNum <= 5
    ensures var (v1, _) := SettleSpec(v, env, sub, true, post, docs, reachable);
      v1.chunks == [] && !v1.uploading
  {
    var u := v.(uploading := false);
    var (v2, d2, r) := UploadSpec(u, env, sub.questionNum, post, docs, reachable);
    UploadKeepsUploading(u, env, sub.questionNum, post, docs, reachable);
  }

  lemma UploadKeepsUploading(v: Page, env: Env, questionNum: int, post: string -> Option<Json>, docs: seq<Application>, reachable: bool)
    ensures UploadSpec(v, env, questionNum, post, docs, reachable).0.uploading == v.uploading
    ensures UploadSpec(v, env, questionNum, post, docs, reachable).0.isRecording == v.isRecording
    ensures UploadSpec(v, env, questionNum, post, docs, reachable).0.recorder == v.recorder
  {
  }

  /** Without a job id, or without a usable reply, an upload changes
      nothing and gives `null`. */
  lemma UploadFailureChangesNothing(v: Page, env: Env, questionNum: int, post: string -> Option<Json>, docs: seq<Application>, reachable: bool)
    requires env.jobId.None? || env.jobId.value == "" || post(Endpoint(questionNum)).None? || post(Endpoint(questionNum)) == Some(JNull)
    ensures UploadSpec(v, env, questionNum, post, docs, reachable) == (v, docs, None)
  {
  }

  /** A reply to turns 0 to 4 counts the upload and moves the turn on, at
      most to 5; the interview stays open and no document changes. */
  lemma TurnAdvances(v: Page, env: Env, questionNum: int, post: string -> Option<Json>, docs: seq<Application>, reachable: bool)
    requires env.jobId.Some? && env.jobId.value != "" && questionNum != 5
    requires post("/api/interview").Some? && post("/api/interview") != Some(JNull)
    ensures var (v1, docs1, r) := UploadSpec(v, env, questionNum, post, docs, reachable);
      && r == post("/api/interview") && docs1 == docs
      && v1.uploadsCount == v.uploadsCount + 1
      && v1.questionCount == (if v.questionCount < 5 then v.questionCount + 1 else v.questionCount)
      && v1.interviewComplete == v.interviewComplete && v1.chunks == v.chunks
  {
    assert Endpoint(questionNum) == "/api/interview";
  }

  /** A reply to turn 5 completes the interview without moving the turn or
      the upload count; the only document that may change is the user's
      first application for the job, and only when there is a user. */
  lemma FinalTurnCompletes(v: Page, env: Env, post: string -> Option<Json>, docs: seq<Application>, reachable: bool)
    requires env.jobId.Some? && env.jobId.value != ""
    requires post("/api/end-interviews").Some? && post("/api/end-interviews") != Some(JNull)
    ensures var (v1, docs1, r) := UploadSpec(v, env, 5, post, docs, reachable);
      && r == post("/api/end-interviews") && v1.interviewComplete
      && v1.questionCount == v.questionCount && v1.uploadsCount == v.uploadsCount
      && (env.userId.None? || env.userId.value == "" ==> docs1 == docs)
      && (env.userId.Some? && env.userId.value != "" ==> docs1 == MarkResultsPending(docs, env.userId.value, env.jobId.value, reachable))
  {
  }

  /** Changing a status does not change which document is first for a
      user and a job. */
  lemma {:induction false} FirstMatchIgnoresStatus(docs: seq<Application>, i: nat, status: string, userId: string, jobId: string)
    requires i < |docs|
    ensures FirstMatch(docs[i := docs[i].(status := status)], userId, jobId) == FirstMatch(docs, userId, jobId)
    decreases |docs|
  {
    var d := docs[i := docs[i].(status := status)];
    if i > 0 {
      assert d[1..] == docs[1..][i - 1 := docs[i].(status := status)];
      FirstMatchIgnoresStatus(docs[1..], i - 1, status, userId, jobId);
    } else {
      assert d[1..] == docs[1..];
    }
  }

  /** Marking twice is marking once, so a second `results_pending` write
      for the same user and job changes nothing. */
  lemma MarkTwiceIsMarkOnce(docs: seq<Application>, userId: string, jobId: string, reachable: bool)
    ensures MarkResultsPending(MarkResultsPending(docs, userId, jobId, reachable), userId, jobId, reachable)
         == MarkResultsPending(docs, userId, jobId, reachable)
  {
    var i := FirstMatch(docs, userId, jobId);
    if reachable && i.Some? {
      FirstMatchIgnoresStatus(docs, i.value, "results_pending", userId, jobId);
    }
  }

  /** Audio the server base64-encoded reaches the player byte for byte. */
  lemma EncodedAudioPlays(v: Page, b: seq<byte>)
    requires |b| > 0
    ensures PlaySpec(v, Some(JStr(Base64.Encode(b)))).played == v.played + [b]
  {
    Base64.AtobEncode(b);
    BytesRoundTrip(b);
  }

  /** The button stays enabled while `uploadAnswer` is pending, so the
      next answer can start then; when the upload finishes it clears the
      chunks that answer has already captured, and a press right after
      submits nothing. */
  lemma AnswerDuringUploadLost(v: Page, env: Env, c: Blob, sub: Submission, post: string -> Option<Json>,
                               docs: seq<Application>, reachable: bool)
    requires ValidPage(v) && !v.interviewComplete && !v.isRecording
    requires env.audioTracks.Some? && env.audioTracks.value > 0 && |c.bytes| > 0
    ensures var v2 := DataSpec(PressSpec(v, env).0, c);
      var v3 := UploadedSpec(v2, env, sub, post, docs, reachable).0;
      && v2.isRecording && v2.chunks == [c]
      && v3.isRecording && v3.chunks == []
      && PressSpec(v3, env).1.None?
  {
    var v2 := DataSpec(PressSpec(v, env).0, c);
    UploadKeepsUploading(v2, env, sub.questionNum, post, docs, reachable);
  }

  /** Every action keeps the page's invariant: the turn stays between 0
      and 5 and a recording is shown exactly while a recorder is active. */
  lemma ActionsKeepValid(v: Page, env: Env, chunk: Blob, sub: Submission, saved: bool, post: string -> Option<Json>,
                         docs: seq<Application>, reachable: bool)
    requires ValidPage(v)
    ensures ValidPage(PressSpec(v, env).0)
    ensures ValidPage(DataSpec(v, chunk))
    ensures ValidPage(IntroEndedSpec(v))
    ensures ValidPage(SaveRepliedSpec(v, sub))
    ensures ValidPage(UploadedSpec(v, env, sub, post, docs, reachable).0)
    ensures ValidPage(SettleSpec(v, env, sub, saved, post, docs, reachable).0)
  {
    PressKeepsValid(v, env);
    SettleKeepsValid(v, env, sub, saved, post, docs, reachable);
  }

  lemma PressKeepsValid(v: Page, env: Env)
    requires ValidPage(v)
    ensures ValidPage(PressSpec(v, env).0)
  {
  }

  lemma SettleKeepsValid(v: Page, env: Env, sub: Submission, saved: bool, post: string -> Option<Json>,
                         docs: seq<Application>, reachable: bool)
    requires ValidPage(v)
    ensures ValidPage(SaveRepliedSpec(v, sub))
    ensures ValidPage(UploadedSpec(v, env, sub, post, docs, reachable).0)
    ensures ValidPage(SettleSpec(v, env, sub, saved, post, docs, reachable).0)
  {
    UploadKeepsUploading(v, env, sub.questionNum, post, docs, reachable);
    UploadKeepsTurnBounds(v, env, sub.questionNum, post, docs, reachable);
    var v1 := SaveRepliedSpec(v, sub);
    UploadKeepsUploading(v1, env, sub.questionNum, post, docs, reachable);
    UploadKeepsTurnBounds(v1, env, sub.questionNum, post, docs, reachable);
  }

  lemma UploadKeepsTurnBounds(v: Page, env: Env, questionNum: int, post: string -> Option<Json>, docs: seq<Application>, reachable: bool)
    requires ValidPage(v)
    ensures ValidPage(UploadSpec(v, env, questionNum, post, docs, reachable).0)
  {
  }

  /** One answer: a press starts the recording, the recorder delivers a
      chunk, a press submits it, and the save succeeds. */
  function Cycle(v: Page, env: Env, chunk: Blob, post: string -> Option<Json>, docs: seq<Application>, reachable: bool): (Page, seq<Application>)
  {
    var v1 := PressSpec(v, env).0;
    var v2 := DataSpec(v1, chunk);
    var (v3, sub) := PressSpec(v2, env);
    if sub.None? then (v3, docs) else SettleSpec(v3, env, sub.value, true, post, docs, reachable)
  }

  /** `k` answers in a row. */
  function Run(v: Page, env: Env, chunk: Blob, post: string -> Option<Json>, docs: seq<Application>, reachable: bool, k: nat): (Page, seq<Application>)
    decreases k
  {
    if k == 0 then (v, docs)
    else
      var (v1, docs1) := Cycle(v, env, chunk, post, docs, reachable);
      Run(v1, env, chunk, post, docs1, reachable, k - 1)
  }

  /** What the answers below assume: a job id, a stream with audio, a
      non-empty chunk and usable replies from both endpoints. */
  predicate Cooperative(env: Env, chunk: Blob, post: string -> Option<Json>)
  {
    && env.jobId.Some? && env.jobId.value != ""
    && env.audioTracks.Some? && env.audioTracks.value > 0
    && |chunk.bytes| > 0
    && post("/api/interview").Some? && post("/api/interview") != Some(JNull)
    && post("/api/end-interviews").Some? && post("/api/end-interviews") != Some(JNull)
  }

  /** An answer in turns 0 to 4 moves the turn on by one and counts the
      upload; an answer in turn 5 completes the interview. */
  lemma CycleAdvances(v: Page, env: Env, chunk: Blob, post: string -> Option<Json>, docs: seq<Application>, reachable: bool)
    requires ValidPage(v) && !v.isRecording && !v.interviewComplete
    requires Cooperative(env, chunk, post)
    ensures var v1 := Cycle(v, env, chunk, post, docs, reachable).0;
      && ValidPage(v1) && !v1.isRecording && v1.chunks == []
      && (v.questionCount < 5 ==> v1.questionCount == v.questionCount + 1 && v1.uploadsCount == v.uploadsCount + 1 && !v1.interviewComplete)
      && (v.questionCount == 5 ==> v1.interviewComplete && v1.questionCount == 5 && v1.uploadsCount == v.uploadsCount)
  {
    var v1 := PressSpec(v, env).0;
    assert v1.isRecording && v1.chunks == [];
    var v2 := DataSpec(v1, chunk);
    assert v2.chunks == [chunk];
    var (v3, sub) := PressSpec(v2, env);
    assert sub == Some(Submission(v.questionCount, Recording([chunk])));
    assert v3.questionCount == v.questionCount && v3.uploadsCount == v.uploadsCount && !v3.isRecording;
    var u := v3.(uploading := false);
    if v.questionCount < 5 {
      TurnAdvances(u, env, v.questionCount, post, docs, reachable);
    } else {
      FinalTurnCompletes(u, env, post, docs, reachable);
    }
    UploadKeepsUploading(u, env, v.questionCount, post, docs, reachable);
    UploadKeepsTurnBounds(u, env, v.questionCount, post, docs, reachable);
  }

  /** From turn `v.questionCount`, `k` answers that stay below turn 5 move
      the turn and the upload count on by `k`. */
  lemma {:induction false} RunAdvances(v: Page, env: Env, chunk: Blob, post: string -> Option<Json>, docs: seq<Application>, reachable: bool, k: nat)
    requires ValidPage(v) && !v.isRecording && !v.interviewComplete
    requires Cooperative(env, chunk, post)
    requires v.questionCount + k <= 5
    ensures var v1 := Run(v, env, chunk, post, docs, reachable, k).0;
      && ValidPage(v1) && !v1.isRecording && !v1.interviewComplete
      && v1.questionCount == v.questionCount + k && v1.uploadsCount == v.uploadsCount + k
    decreases k
  {
    if k > 0 {
      CycleAdvances(v, env, chunk, post, docs, reachable);
      var (v1, docs1) := Cycle(v, env, chunk, post, docs, reachable);
      RunAdvances(v1, env, chunk, post, docs1, reachable, k - 1);
    }
  }

  /** After the introduction, five answers end the interview: the last is
      sent to `/api/end-interviews`, four uploads are counted, and the turn
      never passes 5. */
  lemma FiveAnswersAfterIntro(env: Env, chunk: Blob, post: string -> Option<Json>, docs: seq<Application>, reachable: bool)
    requires Cooperative(env, chunk, post)
    ensures var v := Run(IntroEndedSpec(Initial), env, chunk, post, docs, reachable, 5).0;
      v.interviewComplete && v.questionCount == 5 && v.uploadsCount == 4
  {
    var v0 := IntroEndedSpec(Initial);
    RunAdvances(v0, env, chunk, post, docs, reachable, 4);
    RunSplit(v0, env, chunk, post, docs, reachable, 4);
    var (v4, docs4) := Run(v0, env, chunk, post, docs, reachable, 4);
    CycleAdvances(v4, env, chunk, post, docs4, reachable);
  }

  /** When the introduction's audio never ends, the turn starts at 0 and
      the candidate answers six times, turns 0 to 5, before the end. */
  lemma SixAnswersWithoutIntro(env: Env, chunk: Blob, post: string -> Option<Json>, docs: seq<Application>, reachable: bool)
    requires Cooperative(env, chunk, post)
    ensures var v := Run(Initial, env, chunk, post, docs, reachable, 6).0;
      v.interviewComplete && v.questionCount == 5 && v.uploadsCount == 5
    ensures !Run(Initial, env, chunk, post, docs, reachable, 5).0.interviewComplete
  {
    RunAdvances(Initial, env, chunk, post, docs, reachable, 5);
    RunSplit(Initial, env, chunk, post, docs, reachable, 5);
    var (v5, docs5) := Run(Initial, env, chunk, post, docs, reachable, 5);
    CycleAdvances(v5, env, chunk, post, docs5, reachable);
  }

  /** `k + 1` answers are `k` answers and one more. */
  lemma {:induction false} RunSplit(v: Page, env: Env, chunk: Blob, post: string -> Option<Json>, docs: seq<Application>, reachable: bool, k: nat)
    ensures var (vk, dk) := Run(v, env, chunk, post, docs, reachable, k);
      Run(v, env, chunk, post, docs, reachable, k + 1) == Cycle(vk, env, chunk, post, dk, reachable)
    decreases k
  {
    if k > 0 {
      var (v1, docs1) := Cycle(v, env, chunk, post, docs, reachable);
      RunSplit(v1, env, chunk, post, docs1, reachable, k - 1);
    }
  }

  /** Nothing stops a second answer while the first is being saved: after
      a submission the next press records again, and the one after submits
      another answer for the same turn. */
  lemma SecondAnswerWhileUploading(v: Page, env: Env, c1: Blob, c2: Blob)
    requires ValidPage(v) && !v.isRecording && !v.interviewComplete
    requires env.audioTracks.Some? && env.audioTracks.value > 0 && |c1.bytes| > 0 && |c2.bytes| > 0
    ensures var (v3, s1) := PressSpec(DataSpec(PressSpec(v, env).0, c1), env);
      var (v6, s2) := PressSpec(DataSpec(PressSpec(v3, env).0, c2), env);
      && v3.uploading && s1.Some? && s2.Some?
      && s1.value.questionNum == s2.value.questionNum == v.questionCount
      && s2.value.recording.bytes == c2.bytes
  {
    var v1 := PressSpec(v, env).0;
    var v2 := DataSpec(v1, c1);
    assert v2.chunks == [c1];
    var (v3, s1) := PressSpec(v2, env);
    var v4 := PressSpec(v3, env).0;
    assert v4.isRecording && v4.chunks == [];
    var v5 := DataSpec(v4, c2);
    assert v5.chunks == [c2];
    assert Concat([c2]) == c2.bytes;
  }

  /** The applications collection. */
  class ApplicationStore {
    var docs: seq<Application>

    constructor(docs: seq<Application>)
      ensures this.docs == docs
    {
      this.docs := docs;
    }
  }

  /** The page. */
  class Session {
    const env: Env
    var questionCount: int
    var uploadsCount: int
    var isRecording: bool
    var interviewComplete: bool
    var uploading: bool
    var recorder: Option<string>
    var chunks: seq<Blob>
    var questionText: Json
    var played: seq<seq<byte>>

    function State(): Page
      reads this
    {
      Page(questionCount, uploadsCount, isRecording, interviewComplete, uploading, recorder, chunks, questionText, played)
    }

    predicate Valid()
      reads this
    {
      ValidPage(State())
    }

    constructor(env: Env)
      ensures State() == Initial && this.env == env && Valid()
    {
      this.env := env;
      questionCount, uploadsCount := 0, 0;
      isRecording, interviewComplete, uploading := false, false, false;
      recorder, chunks := None, [];
      questionText, played := JNull, [];
    }

    method StartRecording()
      modifies this
      ensures State() == StartSpec(old(State()), env)
    {
      recorder := None;
      if env.audioTracks.None? || env.audioTracks.value == 0 {
        return;
      }
      var mime := "";
      if env.supported("audio/webm") {
        mime := "audio/webm";
      } else if env.supported("audio/ogg;codecs=opus") {
        mime := "audio/ogg;codecs=opus";
      } else if env.supported("audio/mp4") {
        mime := "audio/mp4";
      }
      recorder := Some(mime);
      chunks := [];
      isRecording := true;
    }

    method StopRecording()
      modifies this
      ensures State() == StopSpec(old(State()))
    {
      if recorder.None? {
        return;
      }
      recorder := None;
      isRecording := false;
    }

    method DataAvailable(chunk: Blob)
      requires Valid()
      modifies this
      ensures State() == DataSpec(old(State()), chunk) && Valid()
    {
      if |chunk.bytes| > 0 {
        chunks := chunks + [chunk];
      }
    }

    method IntroEnded()
      requires Valid()
      modifies this
      ensures State() == IntroEndedSpec(old(State())) && Valid()
    {
      questionText := JStr("Tell me about your background and experience.");
      questionCount := 1;
    }

    /** `answerAndNext` up to the save request. */
    method Press() returns (sub: Option<Submission>)
      requires Valid()
      modifies this
      ensures (State(), sub) == PressSpec(old(State()), env) && Valid()
    {
      if interviewComplete || questionCount > 5 {
        return None;
      }
      if !isRecording && env.audioTracks.Some? {
        StartRecording();
        return None;
      }
      StopRecording();
      if |chunks| == 0 {
        return None;
      }
      var recording := Recording(chunks);
      if questionCount <= 5 {
        uploading := true;
      }
      sub := Some(Submission(questionCount, recording));
    }

    method Play(audio: Option<Json>)
      modifies this
      ensures State() == PlaySpec(old(State()), audio)
    {
      if Present(audio) {
        var bytes := AudioBytes(ToJsString(audio.value));
        if bytes.Some? {
          played := played + [bytes.value];
        }
      }
    }

    /** `uploadAnswer`. */
    method UploadAnswer(questionNum: int, post: string -> Option<Json>, store: ApplicationStore, reachable: bool)
      returns (result: Option<Json>)
      modifies this, store
      ensures (State(), store.docs, result) == UploadSpec(old(State()), env, questionNum, post, old(store.docs), reachable)
    {
      if env.jobId.None? || env.jobId.value == "" {
        return None;
      }
      var url := "/api/interview";
      if questionNum == 5 {
        url := "/api/end-interviews";
      }
      var reply := post(url);
      if reply.None? || reply.value == JNull {
        return None;
      }
      if questionNum == 5 {
        Finish(reply.value, store, reachable);
      } else {
        NextTurn(questionNum, reply.value);
      }
      return reply;
    }

    method Finish(j: Json, store: ApplicationStore, reachable: bool)
      requires env.jobId.Some? && j != JNull
      modifies this, store
      ensures (State(), store.docs) == FinalSpec(old(State()), env, j, old(store.docs), reachable)
    {
      var outro := Member(j, "outro").value;
      questionText := if Present(outro) then outro.value else JStr("Interview complete. Thank you!");
      interviewComplete := true;
      if env.userId.Some? && env.userId.value != "" {
        store.docs := MarkResultsPending(store.docs, env.userId.value, env.jobId.value, reachable);
      }
      Play(Member(j, "audio").value);
    }

    method NextTurn(questionNum: int, j: Json)
      requires j != JNull
      modifies this
      ensures State() == TurnSpec(old(State()), questionNum, j)
    {
      Play(Member(j, "audio").value);
      uploadsCount := uploadsCount + 1;
      questionCount := if questionCount < 5 then questionCount + 1 else questionCount;
      var q := Member(j, "question").value;
      if questionNum < 5 && Present(q) {
        questionText := q.value;
      }
    }

    /** `answerAndNext` when the save request comes back. */
    method SaveReplied(sub: Submission)
      requires Valid()
      modifies this
      ensures State() == SaveRepliedSpec(old(State()), sub) && Valid()
    {
      if sub.questionNum <= 5 {
        uploading := false;
      }
    }

    /** `answerAndNext` when `uploadAnswer` has finished, after a
        successful save. */
    method Uploaded(sub: Submission, post: string -> Option<Json>, store: ApplicationStore, reachable: bool)
      requires Valid()
      modifies this, store
      ensures (State(), store.docs) == UploadedSpec(old(State()), env, sub, post, old(store.docs), reachable)
      ensures Valid()
    {
      ghost var v := State();
      var _ := UploadAnswer(sub.questionNum, post, store, reachable);
      chunks := [];
      UploadKeepsUploading(v, env, sub.questionNum, post, old(store.docs), reachable);
      UploadKeepsTurnBounds(v, env, sub.questionNum, post, old(store.docs), reachable);
    }
  }
}
