/** The envelope of the Flask interview endpoints read back by the Next.js
    routes. When neither the JSON text nor the audio holds the delimiter
    `--valecta`, the audio does not mention `application/json` and the file
    name is plain, the routes cut the envelope into exactly the empty
    preamble, the JSON part, the audio part and the close delimiter's tail;
    they recover the payload as it was written and the audio less the white
    space at its two ends. */
module RoundTrip {
  import opened Wrappers
  import opened JsText
  import opened Latin1
  import opened JsonValue
  import opened PyJson
  import opened Http
  import opened Multipart
  import Base64
  import Backend
  import InterviewRoute
  import EndInterviewsRoute

  /** A file name in which neither the delimiter, nor `application/json`,
      nor a line break can occur. */
  predicate PlainName(name: string)
  {
    IsAscii(name) && 'v' !in name && 'j' !in name && '\r' !in name && '\n' !in name
  }

  /** Audio whose bytes, read as text, hold neither the delimiter nor the JSON type. */
  predicate QuietAudio(audio: seq<byte>)
  {
    IndexOf(BinaryString(audio), Backend.Delimiter) == -1 && !Includes(BinaryString(audio), "application/json")
  }

  /** An object payload whose JSON text does not hold the delimiter. */
  predicate QuietPayload(payload: Json)
  {
    payload.JObj? && IndexOf(Dumps(payload), Backend.Delimiter) == -1
  }

  /** The JSON part between the first two delimiters. */
  function JsonPiece(text: string): string
  {
    Backend.CRLF + Backend.JsonType + Backend.CRLF + Backend.CRLF + text + Backend.CRLF
  }

  /** The headers of the audio part after its delimiter, up to the blank line. */
  function AudioHead(name: string): string
  {
    Backend.CRLF + Backend.AudioType + Backend.CRLF + Backend.Disposition + name
  }

  /** The audio part between the second delimiter and the close delimiter. */
  function AudioPiece(name: string, audio: seq<byte>): string
  {
    AudioHead(name) + Backend.CRLF + Backend.CRLF + BinaryString(audio) + Backend.CRLF
  }

  /** What follows the last delimiter. */
  const Tail: string := "--" + Backend.CRLF

  /** The `audio` the routes extract from audio bytes: the base64 of the
      bytes with white space trimmed from both ends, nothing when that is empty. */
  function AudioOf(audio: seq<byte>): Option<string>
  {
    var t := Trim(BinaryString(audio));
    if t == "" then None else Some(Base64.Encode(FromBinary(t)))
  }

  /** Both endpoints use plain names. */
  lemma ServedNamesArePlain()
    ensures PlainName("processed.mp3") && PlainName("outro.mp3")
  {
    assert PlainName("processed.mp3");
  }

  /** The characters the proofs below rely on being absent from the fixed texts. */
  lemma FixedTextsLackV()
    ensures 'v' !in Backend.CRLF && 'v' !in Backend.ContentType
    ensures 'v' !in "application/json" && 'v' !in "audio/mpeg"
  {
  }

  lemma FixedTextsLackJ()
    ensures 'j' !in Backend.CRLF && 'j' !in Backend.ContentType && 'j' !in "audio/mpeg"
  {
  }

  lemma FixedTextsLackReturn()
    ensures '\r' !in Backend.ContentType && '\r' !in "application/json" && '\r' !in "audio/mpeg"
  {
  }

  lemma DispositionLacksV()
    ensures 'v' !in Backend.Disposition
  {
  }

  lemma DispositionLacksJ()
    ensures 'j' !in Backend.Disposition
  {
  }

  lemma DispositionLacksReturn()
    ensures '\r' !in Backend.Disposition
  {
  }

  lemma DelimiterChars()
    ensures 'v' in Backend.Delimiter && '\r' !in Backend.Delimiter && '\n' !in Backend.Delimiter
    ensures |Backend.Delimiter| == 9
  {
  }

  /** The declared type of an envelope is recognised as multipart. */
  lemma EnvelopeTypeIsMultipart()
    ensures Includes(Backend.EnvelopeType, "multipart/mixed")
  {
    var t := Backend.EnvelopeType;
    assert OccursAt(t, "multipart/mixed", 0) by { assert t[..15] == "multipart/mixed"; }
  }

  /** The declared type of an envelope yields the boundary the body was built with. */
  lemma EnvelopeTypeBoundary()
    ensures BoundaryOf(Backend.EnvelopeType) == Some(Backend.Boundary)
  {
    TypeHeadLacksB();
    BoundaryAfter("multipart/mixed; ", Backend.Boundary);
  }

  lemma TypeHeadLacksB()
    ensures 'b' !in "multipart/mixed; " && 'b' !in Backend.Boundary
    ensures "multipart/mixed; "[16] !in "boundary="
  {
  }

  /** The boundary is what follows `boundary=`, when neither side holds it. */
  lemma BoundaryAfter(head: string, boundary: string)
    requires 'b' !in head && 'b' !in boundary && boundary != ""
    requires head == [] || head[|head| - 1] !in "boundary="
    ensures BoundaryOf(head + "boundary=" + boundary) == Some(boundary)
  {
    AbsentByMissingChar(head, "boundary=", 'b');
    AbsentByMissingChar(boundary, "boundary=", 'b');
    SplitAfter(head, "boundary=", boundary);
    SplitWhole(boundary, "boundary=");
  }

  /** A text without the separator splits into itself. */
  lemma SplitWhole(s: string, sep: string)
    requires |sep| > 0 && IndexOf(s, sep) == -1
    ensures Split(s, sep) == [s]
  {
  }

  /** A text shorter than `t` holds no occurrence of it. */
  lemma TooShort(s: string, t: string)
    requires |s| < |t|
    ensures IndexOf(s, t) == -1
  {
  }

  /** A text includes itself. */
  lemma IncludesItself(t: string)
    requires |t| > 0
    ensures Includes(t, t)
  {
    assert t[..|t|] == t;
  }

  /** `t` does not occur in `head + body + CRLF` when `head` lacks one of its
      characters and ends a line, and `body` holds no occurrence. */
  lemma PieceFree(head: string, body: string, t: string, c: char)
    requires c in t && c !in head && |t| > 2 && IndexOf(body, t) == -1
    requires head != [] && head[|head| - 1] == '\n' && '\n' !in t && '\r' !in t
    ensures IndexOf(head + body + Backend.CRLF, t) == -1
  {
    AbsentByMissingChar(head, t, c);
    AbsentConcat(head, body, t);
    TooShort(Backend.CRLF, t);
    AbsentConcat(head + body, Backend.CRLF, t);
  }

  lemma Reassociate(sep: string, p1: string, p2: string, tail: string)
    ensures sep + p1 + sep + p2 + sep + tail == sep + (p1 + sep + (p2 + sep + tail))
  {
  }

  /** A text that starts with the separator splits first into the empty text. */
  lemma SplitLead(sep: string, rest: string)
    requires |sep| > 0
    ensures Split(sep + rest, sep) == [""] + Split(rest, sep)
  {
    TooShort("", sep);
    assert "" + sep + rest == sep + rest;
    SplitAfter("", sep, rest);
  }

  /** Three separators, each followed by a piece free of it, split into the
      empty text and the three pieces. */
  lemma SplitThree(sep: string, p1: string, p2: string, tail: string)
    requires |sep| > 0
    requires IndexOf(p1, sep) == -1 && IndexOf(p2, sep) == -1 && IndexOf(tail, sep) == -1
    requires p1 != [] && p1[|p1| - 1] !in sep && p2 != [] && p2[|p2| - 1] !in sep
    ensures Split(sep + p1 + sep + p2 + sep + tail, sep) == ["", p1, p2, tail]
  {
    var r2 := p2 + sep + tail;
    var r1 := p1 + sep + r2;
    Reassociate(sep, p1, p2, tail);
    SplitLead(sep, r1);
    SplitAfter(p1, sep, r2);
    SplitAfter(p2, sep, tail);
    SplitWhole(tail, sep);
  }

  /** The body of an envelope regrouped: each delimiter followed by its piece. */
  lemma EnvelopeText(payload: Json, name: string, audio: seq<byte>)
    requires IsAscii(name)
    ensures BinaryString(Backend.EnvelopeBody(payload, name, audio))
         == Backend.Delimiter + JsonPiece(Dumps(payload)) + Backend.Delimiter + AudioPiece(name, audio) + Backend.Delimiter + Tail
  {
    Regroup(Backend.Delimiter, Backend.CRLF, Backend.JsonType, Dumps(payload), Backend.AudioType,
            Backend.Disposition, name, BinaryString(audio), "--");
  }

  lemma Regroup(dl: string, crlf: string, jt: string, d: string, at: string, disp: string, name: string, a: string, dash: string)
    ensures (dl + crlf + jt + crlf + crlf + d + crlf) + (dl + crlf + at + crlf + disp + name + crlf + crlf) + a + (crlf + dl + dash + crlf)
         == dl + (crlf + jt + crlf + crlf + d + crlf) + dl + (crlf + at + crlf + disp + name + crlf + crlf + a + crlf) + dl + (dash + crlf)
  {
  }

  /** A text ending in a line break has `\n` as its last character. */
  lemma EndsLine(s: string)
    ensures var t := s + Backend.CRLF; |t| >= 2 && t[|t| - 1] == '\n' && t[|t| - 2] == '\r'
  {
  }

  /** The delimiter does not occur in the JSON part. */
  lemma JsonPieceQuiet(text: string)
    requires IndexOf(text, Backend.Delimiter) == -1
    ensures IndexOf(JsonPiece(text), Backend.Delimiter) == -1
  {
    var head := Backend.CRLF + Backend.JsonType + Backend.CRLF + Backend.CRLF;
    FixedTextsLackV();
    DelimiterChars();
    EndsLine(Backend.CRLF + Backend.JsonType + Backend.CRLF);
    PieceFree(head, text, Backend.Delimiter, 'v');
  }

  lemma JsonTypeChars()
    ensures 'j' in "application/json" && '\r' !in "application/json" && '\n' !in "application/json"
  {
  }

  /** Neither the delimiter nor the JSON type occurs in the audio part. */
  lemma AudioPieceQuiet(name: string, audio: seq<byte>)
    requires PlainName(name) && QuietAudio(audio)
    ensures IndexOf(AudioPiece(name, audio), Backend.Delimiter) == -1
    ensures !Includes(AudioPiece(name, audio), "application/json")
  {
    var head := AudioHead(name) + Backend.CRLF + Backend.CRLF;
    FixedTextsLackV();
    FixedTextsLackJ();
    DispositionLacksV();
    DispositionLacksJ();
    DelimiterChars();
    JsonTypeChars();
    EndsLine(AudioHead(name) + Backend.CRLF);
    PieceFree(head, BinaryString(audio), Backend.Delimiter, 'v');
    PieceFree(head, BinaryString(audio), "application/json", 'j');
  }

  /** The body of an envelope splits at the delimiter into four pieces. */
  lemma EnvelopeParts(payload: Json, name: string, audio: seq<byte>)
    requires QuietPayload(payload) && PlainName(name) && QuietAudio(audio)
    ensures Parts(Backend.EnvelopeBody(payload, name, audio), Backend.Boundary)
         == ["", JsonPiece(Dumps(payload)), AudioPiece(name, audio), Tail]
  {
    var p1, p2 := JsonPiece(Dumps(payload)), AudioPiece(name, audio);
    EnvelopeText(payload, name, audio);
    JsonPieceQuiet(Dumps(payload));
    AudioPieceQuiet(name, audio);
    DelimiterChars();
    TooShort(Tail, Backend.Delimiter);
    EndsLine(Backend.CRLF + Backend.JsonType + Backend.CRLF + Backend.CRLF + Dumps(payload));
    EndsLine(AudioHead(name) + Backend.CRLF + Backend.CRLF + BinaryString(audio));
    SplitThree(Backend.Delimiter, p1, p2, Tail);
  }

  /** Two line breaks make the blank line the routes search for. */
  lemma TwoBreaksBlankLine()
    ensures Backend.CRLF + Backend.CRLF == BlankLine
    ensures AllSpace(Backend.CRLF) && '\r' in BlankLine && Backend.CRLF[0] in BlankLine
  {
  }

  /** The first and last characters of the fixed header texts. */
  lemma HeaderEnds()
    ensures Backend.JsonType[0] == 'C' && Backend.JsonType[|Backend.JsonType| - 1] == 'n'
    ensures Backend.AudioType[0] == 'C' && Backend.AudioType[|Backend.AudioType| - 1] == 'g'
    ensures Backend.Disposition[0] == 'C' && Backend.Disposition[|Backend.Disposition| - 1] == '='
  {
  }

  /** The JSON text of a payload has no carriage return and does not end in white space. */
  lemma DumpsChars(payload: Json)
    requires payload.JObj?
    ensures var d := Dumps(payload); '\r' !in d && d[0] == '{' && d[|d| - 1] == '}'
  {
    var d := Dumps(payload);
    assert forall k :: 0 <= k < |d| ==> d[k] != '\r';
  }

  /** The text after the blank line of the JSON part splits off whole. */
  lemma JsonBodyWhole(payload: Json)
    requires payload.JObj?
    ensures IndexOf(Dumps(payload) + Backend.CRLF, BlankLine) == -1
  {
    var d := Dumps(payload);
    DumpsChars(payload);
    TwoBreaksBlankLine();
    AbsentByMissingChar(d, BlankLine, '\r');
    TooShort(Backend.CRLF, BlankLine);
    AbsentConcat(d, Backend.CRLF, BlankLine);
  }

  /** The headers of the JSON part hold no blank line. */
  lemma JsonHeadHasNoBlankLine()
    ensures IndexOf(Backend.CRLF + Backend.JsonType, BlankLine) == -1
  {
    FixedTextsLackReturn();
    TwoBreaksBlankLine();
    HeaderEnds();
    TooShort(Backend.CRLF, BlankLine);
    AbsentByMissingChar(Backend.JsonType, BlankLine, '\r');
    AbsentConcat(Backend.CRLF, Backend.JsonType, BlankLine);
  }

  lemma RegroupJson(crlf: string, ct: string, jt: string, d: string)
    ensures crlf + (ct + jt) + crlf + crlf + d + crlf == (crlf + ct) + jt + (crlf + crlf + d + crlf)
    ensures crlf + (ct + jt) + crlf + crlf + d + crlf == (crlf + (ct + jt)) + (crlf + crlf) + (d + crlf)
  {
  }

  /** The JSON part mentions the JSON type. */
  lemma JsonPieceIsJson(text: string)
    ensures Includes(JsonPiece(text), "application/json")
  {
    RegroupJson(Backend.CRLF, Backend.ContentType, "application/json", text);
    IncludesItself("application/json");
    IncludesInContext(Backend.CRLF + Backend.ContentType, "application/json", Backend.CRLF + Backend.CRLF + text + Backend.CRLF, "application/json");
  }

  /** Splitting `head + sep + body` when neither piece holds the separator. */
  lemma SplitTwo(head: string, sep: string, body: string)
    requires |sep| > 0 && IndexOf(head, sep) == -1 && IndexOf(body, sep) == -1
    requires head != [] && head[|head| - 1] !in sep
    ensures Split(head + sep + body, sep) == [head, body]
  {
    SplitAfter(head, sep, body);
    SplitWhole(body, sep);
  }

  /** The JSON part splits at its blank line into headers and body. */
  lemma JsonPieceSplit(text: string)
    requires IndexOf(text + Backend.CRLF, BlankLine) == -1
    ensures Split(JsonPiece(text), BlankLine) == [Backend.CRLF + Backend.JsonType, text + Backend.CRLF]
  {
    RegroupJson(Backend.CRLF, Backend.ContentType, "application/json", text);
    TwoBreaksBlankLine();
    HeaderEnds();
    JsonHeadHasNoBlankLine();
    SplitTwo(Backend.CRLF + Backend.JsonType, BlankLine, text + Backend.CRLF);
  }

  /** Trimming the JSON part's body gives the payload's text. */
  lemma JsonBodyTrimmed(payload: Json)
    requires payload.JObj?
    ensures Trim(Dumps(payload) + Backend.CRLF) == Dumps(payload)
  {
    TwoBreaksBlankLine();
    TrimAppendSpace(Dumps(payload), Backend.CRLF);
    DumpsChars(payload);
    TrimUnchanged(Dumps(payload));
  }

  /** The JSON text of the JSON part is the payload's text as written. */
  lemma JsonTextOfPiece(payload: Json)
    requires payload.JObj?
    ensures JsonText(JsonPiece(Dumps(payload))) == Some(Dumps(payload))
  {
    JsonBodyWhole(payload);
    JsonPieceSplit(Dumps(payload));
    JsonBodyTrimmed(payload);
  }

  /** The JSON part is classified as JSON and yields the text as written. */
  lemma JsonPieceRead(payload: Json)
    requires payload.JObj?
    ensures Classify(JsonPiece(Dumps(payload))) == JsonKind(Some(Dumps(payload)))
  {
    JsonPieceIsJson(Dumps(payload));
    JsonTextOfPiece(payload);
  }

  /** The audio headers hold no blank line. */
  lemma AudioHeadHasNoBlankLine(name: string)
    requires PlainName(name)
    ensures IndexOf(AudioHead(name), BlankLine) == -1
  {
    var crlf, at, disp := Backend.CRLF, Backend.AudioType, Backend.Disposition;
    FixedTextsLackReturn();
    DispositionLacksReturn();
    TwoBreaksBlankLine();
    HeaderEnds();
    TooShort(crlf, BlankLine);
    AbsentByMissingChar(at, BlankLine, '\r');
    AbsentByMissingChar(disp + name, BlankLine, '\r');
    AbsentConcat(crlf, at, BlankLine);
    AbsentConcat(crlf + at, crlf, BlankLine);
    AbsentConcat(crlf + at + crlf, disp + name, BlankLine);
    assert AudioHead(name) == crlf + at + crlf + (disp + name);
  }

  /** The audio headers do not end inside a blank line. */
  lemma AudioHeadEnd(name: string)
    requires PlainName(name)
    ensures var h := AudioHead(name); h != [] && h[|h| - 1] !in BlankLine
  {
    HeaderEnds();
    var h := AudioHead(name);
    if name != [] {
      assert h[|h| - 1] == name[|name| - 1];
    }
  }

  lemma RegroupAudio(crlf: string, ct: string, at: string, disp: string, name: string, a: string)
    ensures crlf + (ct + at) + crlf + disp + name + crlf + crlf + a + crlf
         == (crlf + ct) + at + (crlf + disp + name + crlf + crlf + a + crlf)
    ensures crlf + (ct + at) + crlf + disp + name + crlf + crlf + a + crlf
         == (crlf + (ct + at) + crlf + disp + name) + (crlf + crlf) + (a + crlf)
  {
  }

  /** The audio part is classified as audio and yields `AudioOf(audio)`. */
  lemma AudioPieceRead(name: string, audio: seq<byte>)
    requires PlainName(name) && QuietAudio(audio)
    ensures Classify(AudioPiece(name, audio)) == AudioKind(AudioOf(audio))
  {
    var a := BinaryString(audio);
    var p := AudioPiece(name, audio);
    var crlf := Backend.CRLF;
    AudioPieceQuiet(name, audio);
    RegroupAudio(crlf, Backend.ContentType, "audio/mpeg", Backend.Disposition, name, a);
    IncludesItself("audio/mpeg");
    IncludesInContext(crlf + Backend.ContentType, "audio/mpeg", crlf + Backend.Disposition + name + crlf + crlf + a + crlf, "audio/mpeg");
    TwoBreaksBlankLine();
    AudioHeadHasNoBlankLine(name);
    AudioHeadEnd(name);
    IndexOfAfter(AudioHead(name), BlankLine, a + crlf);
    assert p[|AudioHead(name)| + 4..] == a + crlf;
    TrimAppendSpace(a, crlf);
  }

  /** The preamble and the close delimiter's tail are ignored. */
  lemma OtherPiecesIgnored()
    ensures Classify("") == OtherKind && Classify(Tail) == OtherKind
  {
    TooShort("", "application/json");
    TooShort("", "audio/mpeg");
    TooShort(Tail, "application/json");
    TooShort(Tail, "audio/mpeg");
  }

  /** What `/api/interview` remembers from a JSON part with this payload. */
  function RememberedQuestion(payload: Json): Json
    requires payload != JNull
  {
    Or(Member(payload, "question").value, JStr(""))
  }

  function RememberedModelAnswer(payload: Json): Json
    requires payload != JNull
  {
    Or(Member(payload, "model_answer").value, JStr(""))
  }

  /** The parts of an envelope, classified. */
  lemma EnvelopeClassified(payload: Json, name: string, audio: seq<byte>)
    requires QuietPayload(payload) && PlainName(name) && QuietAudio(audio)
    ensures var parts := Parts(Backend.EnvelopeBody(payload, name, audio), Backend.Boundary);
      && |parts| == 4
      && Classify(parts[0]) == OtherKind && Classify(parts[3]) == OtherKind
      && Classify(parts[1]) == JsonKind(Some(Dumps(payload)))
      && Classify(parts[2]) == AudioKind(AudioOf(audio))
  {
    var parts := Parts(Backend.EnvelopeBody(payload, name, audio), Backend.Boundary);
    EnvelopeParts(payload, name, audio);
    assert parts[0] == "" && parts[1] == JsonPiece(Dumps(payload));
    assert parts[2] == AudioPiece(name, audio) && parts[3] == Tail;
    OtherPiecesIgnored();
    JsonPieceRead(payload);
    AudioPieceRead(name, audio);
  }

  /** The `/api/interview` loop over an ignored part, a JSON part, an audio
      part and an ignored part. */
  lemma InterviewLoopOverFour(parts: seq<string>, text: string, payload: Json, audio: Option<string>,
                              init: InterviewRoute.Decoded, parse: string -> Option<Json>)
    requires |parts| == 4 && init.audio.None?
    requires Classify(parts[0]) == OtherKind && Classify(parts[3]) == OtherKind
    requires Classify(parts[1]) == JsonKind(Some(text)) && Classify(parts[2]) == AudioKind(audio)
    requires parse(text) == Some(payload) && payload != JNull
    ensures InterviewRoute.DecodeParts(parts, init, parse)
         == (InterviewRoute.Decoded(payload, audio, RememberedQuestion(payload), RememberedModelAnswer(payload)), None)
  {
    var st1 := InterviewRoute.Decoded(payload, None, RememberedQuestion(payload), RememberedModelAnswer(payload));
    var st2 := st1.(audio := audio);
    assert InterviewRoute.Step(init, parts[0], parse) == Success(init);
    assert InterviewRoute.Step(init, parts[1], parse) == Success(st1);
    assert InterviewRoute.Step(st1, parts[2], parse) == Success(st2);
    assert InterviewRoute.Step(st2, parts[3], parse) == Success(st2);
    assert parts[..3][..2][..1][..0] == [];
    assert InterviewRoute.DecodeParts(parts[..3][..2][..1], init, parse) == (init, None);
    assert InterviewRoute.DecodeParts(parts[..3][..2], init, parse) == (st1, None);
    assert InterviewRoute.DecodeParts(parts[..3], init, parse) == (st2, None);
  }

  /** The `/api/interview` decoding loop over an envelope's parts ends
      without failure, holding the payload as parsed, the question and
      model answer it carries, and the trimmed audio. */
  lemma InterviewDecodes(payload: Json, name: string, audio: seq<byte>, parse: string -> Option<Json>,
                         question: Json, modelAnswer: Json)
    requires QuietPayload(payload) && PlainName(name) && QuietAudio(audio)
    requires parse(Dumps(payload)) == Some(payload)
    ensures InterviewRoute.DecodeParts(Parts(Backend.EnvelopeBody(payload, name, audio), Backend.Boundary),
                                       InterviewRoute.Decoded(JObj([]), None, question, modelAnswer), parse)
         == (InterviewRoute.Decoded(payload, AudioOf(audio), RememberedQuestion(payload), RememberedModelAnswer(payload)), None)
  {
    EnvelopeClassified(payload, name, audio);
    InterviewLoopOverFour(Parts(Backend.EnvelopeBody(payload, name, audio), Backend.Boundary), Dumps(payload), payload,
                          AudioOf(audio), InterviewRoute.Decoded(JObj([]), None, question, modelAnswer), parse);
  }

  /** The `/api/end-interviews` loop over an ignored part, a JSON part, an
      audio part and an ignored part. */
  lemma EndLoopOverFour(parts: seq<string>, text: string, payload: Json, audio: Option<string>,
                        parse: string -> Option<Json>, numberPrefix: string -> Json)
    requires |parts| == 4
    requires Classify(parts[0]) == OtherKind && Classify(parts[3]) == OtherKind
    requires Classify(parts[1]) == JsonKind(Some(text)) && Classify(parts[2]) == AudioKind(audio)
    requires parse(text) == Some(payload) && payload != JNull
    ensures EndInterviewsRoute.DecodeParts(parts, parse, numberPrefix)
         == Success(EndInterviewsRoute.Tally(Or(Member(payload, "outro").value, JStr("")),
                                             ScoreRead(payload, numberPrefix), audio))
  {
    var t0 := EndInterviewsRoute.Start;
    var t1 := t0.(outro := Or(Member(payload, "outro").value, JStr("")), score := ScoreRead(payload, numberPrefix));
    var t2 := t1.(audio := audio);
    assert EndInterviewsRoute.Step(t0, parts[0], parse, numberPrefix) == Success(t0);
    assert EndInterviewsRoute.Step(t0, parts[1], parse, numberPrefix) == Success(t1);
    assert EndInterviewsRoute.Step(t1, parts[2], parse, numberPrefix) == Success(t2);
    assert EndInterviewsRoute.Step(t2, parts[3], parse, numberPrefix) == Success(t2);
    assert parts[..3][..2][..1][..0] == [];
    assert EndInterviewsRoute.DecodeParts(parts[..3][..2][..1], parse, numberPrefix) == Success(t0);
    assert EndInterviewsRoute.DecodeParts(parts[..3][..2], parse, numberPrefix) == Success(t1);
    assert EndInterviewsRoute.DecodeParts(parts[..3], parse, numberPrefix) == Success(t2);
  }

  /** The `/api/end-interviews` decoding loop over an envelope's parts ends
      without failure, holding the outro, the score as `parseFloat` reads
      it, and the trimmed audio. */
  lemma EndDecodes(payload: Json, name: string, audio: seq<byte>, parse: string -> Option<Json>, numberPrefix: string -> Json)
    requires QuietPayload(payload) && PlainName(name) && QuietAudio(audio)
    requires parse(Dumps(payload)) == Some(payload)
    ensures EndInterviewsRoute.DecodeParts(Parts(Backend.EnvelopeBody(payload, name, audio), Backend.Boundary), parse, numberPrefix)
         == Success(EndInterviewsRoute.Tally(Or(Member(payload, "outro").value, JStr("")),
                                             ScoreRead(payload, numberPrefix), AudioOf(audio)))
  {
    EnvelopeClassified(payload, name, audio);
    EndLoopOverFour(Parts(Backend.EnvelopeBody(payload, name, audio), Backend.Boundary), Dumps(payload), payload,
                    AudioOf(audio), parse, numberPrefix);
  }

  /** The score `/api/end-interviews` reads from a JSON part with this payload. */
  function ScoreRead(payload: Json, numberPrefix: string -> Json): Json
    requires payload != JNull
  {
    var score := Member(payload, "score").value;
    if Present(score) then EndInterviewsRoute.ParseFloat(score.value, numberPrefix) else JNull
  }

  /** The answer `/api/interview` gives for a payload: its properties and then `audio`. */
  function InterviewAnswer(payload: Json, audio: seq<byte>): Json
    requires payload.JObj?
  {
    JObj(payload.fields + [("audio", AudioJson(AudioOf(audio)))])
  }

  /** What the route remembers from an `/interview` payload is the question
      and model answer it carries, whether empty or not. */
  lemma InterviewPayloadRemembered(question: string, modelAnswer: string, score: Backend.Score)
    ensures var payload := Backend.InterviewPayload(question, modelAnswer, score);
      && RememberedQuestion(payload) == JStr(question)
      && RememberedModelAnswer(payload) == JStr(modelAnswer)
      && Get(payload.fields, "audio").None?
  {
    var f := Backend.InterviewPayload(question, modelAnswer, score).fields;
    assert Get(f, "model_answer") == Get(f[1..], "model_answer");
    assert f[1..][0] == ("model_answer", JStr(modelAnswer));
  }

  /** An `/interview` envelope read by `/api/interview`: answered with 200,
      the payload's three properties and the audio; the question and model
      answer the service produced are what the route remembers. */
  lemma InterviewReplyRead(question: string, modelAnswer: string, score: Backend.Score, name: string, audio: seq<byte>,
                           parse: string -> Option<Json>, lastQuestion: Json, lastModelAnswer: Json)
    requires QuietPayload(Backend.InterviewPayload(question, modelAnswer, score)) && PlainName(name) && QuietAudio(audio)
    requires var payload := Backend.InterviewPayload(question, modelAnswer, score); parse(Dumps(payload)) == Some(payload)
    ensures var payload := Backend.InterviewPayload(question, modelAnswer, score);
      InterviewRoute.MultipartOutcome(Backend.EnvelopeType, Backend.EnvelopeBody(payload, name, audio), parse,
                                      lastQuestion, lastModelAnswer)
      == InterviewRoute.Outcome(Response(200, InterviewAnswer(payload, audio)), JStr(question), JStr(modelAnswer))
  {
    var payload := Backend.InterviewPayload(question, modelAnswer, score);
    EnvelopeTypeBoundary();
    InterviewDecodes(payload, name, audio, parse, lastQuestion, lastModelAnswer);
    InterviewPayloadRemembered(question, modelAnswer, score);
  }

  /** The Flask `/interview` endpoint on the form `/api/interview` sends:
      the form passes validation, the service is asked with the job
      description and the transcript, and the envelope carries the new
      question, its model answer, the score and the speech of the question. */
  lemma InterviewEndpointOnRouteForm(jd: string, answer: string, lastQuestion: Json, lastModelAnswer: Json, ai: Backend.Services)
    ensures var form := InterviewRoute.OutboundForm(jd, answer, lastQuestion, lastModelAnswer);
      var (question, modelAnswer) := ai.ask(jd, answer);
      var score := ai.review(jd, ToJsString(lastQuestion), ToJsString(lastModelAnswer), answer);
      Backend.Interview(form, ai)
      == Backend.Envelope(Backend.EnvelopeType,
                          Backend.EnvelopeBody(Backend.InterviewPayload(question, modelAnswer, score), "processed.mp3",
                                               ai.speech(question)))
  {
    InterviewFormRead(jd, answer, lastQuestion, lastModelAnswer);
  }

  /** The `/interview` endpoint reads back each field of the route's form. */
  lemma InterviewFormRead(jd: string, answer: string, lastQuestion: Json, lastModelAnswer: Json)
    ensures Backend.RequestFields(InterviewRoute.OutboundForm(jd, answer, lastQuestion, lastModelAnswer), Backend.InterviewAnswerKey)
         == Some(Backend.InterviewInput(answer, jd, ToJsString(lastQuestion), ToJsString(lastModelAnswer)))
  {
    var form := InterviewRoute.OutboundForm(jd, answer, lastQuestion, lastModelAnswer);
    assert form["human_answer_text"] == answer && form["job_description"] == jd;
    assert form["question"] == ToJsString(lastQuestion) && form["model_answer"] == ToJsString(lastModelAnswer);
  }

  /** A multipart reply with status 200 is decoded as multipart. */
  lemma EnvelopeReplyDecoded(payload: Json, name: string, audio: seq<byte>, env: InterviewRoute.Env, lastQuestion: Json, lastModelAnswer: Json)
    requires IsAscii(name)
    ensures var body := Backend.EnvelopeBody(payload, name, audio);
      InterviewRoute.ReplyOutcome(FromBackend(Backend.Envelope(Backend.EnvelopeType, body)), env, lastQuestion, lastModelAnswer)
      == InterviewRoute.MultipartOutcome(Backend.EnvelopeType, body, env.parse, lastQuestion, lastModelAnswer)
  {
    EnvelopeTypeIsMultipart();
  }

  /** Once the checks pass, `/api/interview` answers and remembers what it
      makes of the reply to the form it sends. */
  lemma InterviewHandleWhenReady(req: InterviewRoute.Request, env: InterviewRoute.Env, lastQuestion: Json, lastModelAnswer: Json,
                                 jd: string, fileName: string)
    requires InterviewRoute.Check(req, env) == InterviewRoute.Ready(jd, fileName)
    ensures var form := InterviewRoute.OutboundForm(jd, env.transcribe(fileName), lastQuestion, lastModelAnswer);
      var out := InterviewRoute.ReplyOutcome(env.backend(form), env, lastQuestion, lastModelAnswer);
      InterviewRoute.Handle(req, env, lastQuestion, lastModelAnswer) == InterviewRoute.Turn(out.response, Some(form), out.question, out.modelAnswer)
  {
  }

  /** What `/api/interview` makes of the Flask `/interview` endpoint's reply
      to its form. */
  lemma InterviewServiceReply(env: InterviewRoute.Env, ai: Backend.Services, lastQuestion: Json, lastModelAnswer: Json,
                              jd: string, answer: string, question: string, modelAnswer: string, score: Backend.Score)
    requires ai.ask(jd, answer) == (question, modelAnswer)
    requires ai.review(jd, ToJsString(lastQuestion), ToJsString(lastModelAnswer), answer) == score
    requires QuietPayload(Backend.InterviewPayload(question, modelAnswer, score)) && QuietAudio(ai.speech(question))
    requires var payload := Backend.InterviewPayload(question, modelAnswer, score); env.parse(Dumps(payload)) == Some(payload)
    ensures var form := InterviewRoute.OutboundForm(jd, answer, lastQuestion, lastModelAnswer);
      InterviewRoute.ReplyOutcome(FromBackend(Backend.Interview(form, ai)), env, lastQuestion, lastModelAnswer)
      == InterviewRoute.Outcome(Response(200, InterviewAnswer(Backend.InterviewPayload(question, modelAnswer, score), ai.speech(question))),
                                JStr(question), JStr(modelAnswer))
  {
    var payload := Backend.InterviewPayload(question, modelAnswer, score);
    var audio := ai.speech(question);
    InterviewEndpointOnRouteForm(jd, answer, lastQuestion, lastModelAnswer, ai);
    ServedNamesArePlain();
    EnvelopeReplyDecoded(payload, "processed.mp3", audio, env, lastQuestion, lastModelAnswer);
    InterviewReplyRead(question, modelAnswer, score, "processed.mp3", audio, env.parse, lastQuestion, lastModelAnswer);
  }

  /** `/api/interview` wired to the Flask `/interview` endpoint: once the
      route's checks pass, it answers 200 with the question, model answer
      and score the service produced and the audio of the question; the
      question and model answer it remembers, and so sends with the next
      answer, are exactly the ones the service produced. */
  lemma InterviewRoundTrip(req: InterviewRoute.Request, env: InterviewRoute.Env, ai: Backend.Services,
                           lastQuestion: Json, lastModelAnswer: Json, jd: string, fileName: string,
                           question: string, modelAnswer: string, score: Backend.Score)
    requires InterviewRoute.Check(req, env) == InterviewRoute.Ready(jd, fileName)
    requires var form := InterviewRoute.OutboundForm(jd, env.transcribe(fileName), lastQuestion, lastModelAnswer);
      env.backend(form) == FromBackend(Backend.Interview(form, ai))
    requires ai.ask(jd, env.transcribe(fileName)) == (question, modelAnswer)
    requires ai.review(jd, ToJsString(lastQuestion), ToJsString(lastModelAnswer), env.transcribe(fileName)) == score
    requires QuietPayload(Backend.InterviewPayload(question, modelAnswer, score)) && QuietAudio(ai.speech(question))
    requires var payload := Backend.InterviewPayload(question, modelAnswer, score); env.parse(Dumps(payload)) == Some(payload)
    ensures var t := InterviewRoute.Handle(req, env, lastQuestion, lastModelAnswer);
      && t.response == Response(200, InterviewAnswer(Backend.InterviewPayload(question, modelAnswer, score), ai.speech(question)))
      && t.question == JStr(question) && t.modelAnswer == JStr(modelAnswer)
      && ToJsString(t.question) == question && ToJsString(t.modelAnswer) == modelAnswer
  {
    var answer := env.transcribe(fileName);
    var form := InterviewRoute.OutboundForm(jd, answer, lastQuestion, lastModelAnswer);
    var out := InterviewRoute.ReplyOutcome(env.backend(form), env, lastQuestion, lastModelAnswer);
    InterviewHandleWhenReady(req, env, lastQuestion, lastModelAnswer, jd, fileName);
    InterviewServiceReply(env, ai, lastQuestion, lastModelAnswer, jd, answer, question, modelAnswer, score);
    TurnOfOutcome(InterviewRoute.Handle(req, env, lastQuestion, lastModelAnswer), form, out,
                  InterviewAnswer(Backend.InterviewPayload(question, modelAnswer, score), ai.speech(question)), question, modelAnswer);
  }

  /** A turn read off the outcome of its reply. */
  lemma TurnOfOutcome(t: InterviewRoute.Turn, form: Backend.Form, out: InterviewRoute.Outcome,
                      answer: Json, question: string, modelAnswer: string)
    requires t == InterviewRoute.Turn(out.response, Some(form), out.question, out.modelAnswer)
    requires out == InterviewRoute.Outcome(Response(200, answer), JStr(question), JStr(modelAnswer))
    ensures t.response == Response(200, answer)
    ensures t.question == JStr(question) && t.modelAnswer == JStr(modelAnswer)
    ensures ToJsString(t.question) == question && ToJsString(t.modelAnswer) == modelAnswer
  {
  }

  /** The score as `/api/end-interviews` answers it: `parseFloat` of a
      truthy score, `null` otherwise. */
  function ScoreAnswered(score: Json, numberPrefix: string -> Json): Json
  {
    if Truthy(score) then EndInterviewsRoute.ParseFloat(score, numberPrefix) else JNull
  }

  /** What `/api/end-interviews` reads from an `/end-interview` payload. */
  lemma EndPayloadRead(outro: string, score: Backend.Score, numberPrefix: string -> Json)
    ensures var payload := Backend.EndPayload(outro, score);
      && Or(Member(payload, "outro").value, JStr("")) == JStr(outro)
      && ScoreRead(payload, numberPrefix) == ScoreAnswered(score.json, numberPrefix)
  {
    var f := Backend.EndPayload(outro, score).fields;
    assert Get(f, "score") == Get(f[1..], "score");
    assert f[1..][0] == ("score", score.json);
  }

  /** An `/end-interview` envelope read by `/api/end-interviews`: answered
      with 200, the outro, the score as `parseFloat` reads it, and the audio. */
  lemma EndReplyRead(outro: string, score: Backend.Score, name: string, audio: seq<byte>,
                     parse: string -> Option<Json>, numberPrefix: string -> Json)
    requires QuietPayload(Backend.EndPayload(outro, score)) && PlainName(name) && QuietAudio(audio)
    requires var payload := Backend.EndPayload(outro, score); parse(Dumps(payload)) == Some(payload)
    ensures var body := Backend.EnvelopeBody(Backend.EndPayload(outro, score), name, audio);
      EndInterviewsRoute.ReplyResponse(FromBackend(Backend.Envelope(Backend.EnvelopeType, body)), parse, numberPrefix)
      == Response(200, EndInterviewsRoute.Answer(EndInterviewsRoute.Tally(JStr(outro), ScoreAnswered(score.json, numberPrefix), AudioOf(audio))))
  {
    EnvelopeTypeIsMultipart();
    EnvelopeTypeBoundary();
    EndDecodes(Backend.EndPayload(outro, score), name, audio, parse, numberPrefix);
    EndPayloadRead(outro, score, numberPrefix);
  }

  /** The Flask `/end-interview` endpoint, as intended, on the form
      `/api/end-interviews` sends. */
  lemma EndEndpointOnRouteForm(jd: string, answer: string, lastQuestion: Json, lastModelAnswer: Json, ai: Backend.Services)
    ensures var form := EndInterviewsRoute.OutboundForm(jd, answer, lastQuestion, lastModelAnswer);
      var outro := ai.outro(jd, answer);
      var score := ai.review(jd, ToJsString(lastQuestion), ToJsString(lastModelAnswer), answer);
      Backend.EndInterview(form, ai)
      == Backend.Envelope(Backend.EnvelopeType, Backend.EnvelopeBody(Backend.EndPayload(outro, score), "outro.mp3", ai.speech(outro)))
  {
  }

  /** Once the checks pass, `/api/end-interviews` answers with what it
      makes of the reply to the form it sends. */
  lemma EndHandleWhenReady(req: InterviewRoute.Request, env: InterviewRoute.Env, numberPrefix: string -> Json,
                           jd: string, fileName: string)
    requires InterviewRoute.Check(req, env) == InterviewRoute.Ready(jd, fileName)
    ensures var form := EndInterviewsRoute.OutboundForm(jd, env.transcribe(fileName), JStr(""), JStr(""));
      EndInterviewsRoute.Handle(req, env, numberPrefix, JStr(""), JStr("")).0
      == EndInterviewsRoute.ReplyResponse(env.backend(form), env.parse, numberPrefix)
  {
  }

  /** What `/api/end-interviews` makes of the intended `/end-interview`
      endpoint's reply to its form. */
  lemma EndServiceReply(env: InterviewRoute.Env, ai: Backend.Services, numberPrefix: string -> Json,
                        jd: string, answer: string, outro: string, score: Backend.Score)
    requires ai.outro(jd, answer) == outro
    requires ai.review(jd, "", "", answer) == score
    requires QuietPayload(Backend.EndPayload(outro, score)) && QuietAudio(ai.speech(outro))
    requires var payload := Backend.EndPayload(outro, score); env.parse(Dumps(payload)) == Some(payload)
    ensures var form := EndInterviewsRoute.OutboundForm(jd, answer, JStr(""), JStr(""));
      EndInterviewsRoute.ReplyResponse(FromBackend(Backend.EndInterview(form, ai)), env.parse, numberPrefix)
      == Response(200, EndInterviewsRoute.Answer(EndInterviewsRoute.Tally(JStr(outro), ScoreAnswered(score.json, numberPrefix), AudioOf(ai.speech(outro)))))
  {
    var form := EndInterviewsRoute.OutboundForm(jd, answer, JStr(""), JStr(""));
    var payload := Backend.EndPayload(outro, score);
    ServedNamesArePlain();
    EndEndpointOnRouteForm(jd, answer, JStr(""), JStr(""), ai);
    assert Backend.EndInterview(form, ai) == Backend.Envelope(Backend.EnvelopeType, Backend.EnvelopeBody(payload, "outro.mp3", ai.speech(outro)));
    EndReplyRead(outro, score, "outro.mp3", ai.speech(outro), env.parse, numberPrefix);
  }

  /** `/api/end-interviews` wired to the intended `/end-interview`: once the
      checks pass it answers 200 with the outro, the score and the speech of
      the outro; the service is told the question and model answer are empty. */
  lemma EndRoundTrip(req: InterviewRoute.Request, env: InterviewRoute.Env, ai: Backend.Services, numberPrefix: string -> Json,
                     jd: string, fileName: string, outro: string, score: Backend.Score)
    requires InterviewRoute.Check(req, env) == InterviewRoute.Ready(jd, fileName)
    requires var form := EndInterviewsRoute.OutboundForm(jd, env.transcribe(fileName), JStr(""), JStr(""));
      env.backend(form) == FromBackend(Backend.EndInterview(form, ai))
    requires ai.outro(jd, env.transcribe(fileName)) == outro
    requires ai.review(jd, "", "", env.transcribe(fileName)) == score
    requires QuietPayload(Backend.EndPayload(outro, score)) && QuietAudio(ai.speech(outro))
    requires var payload := Backend.EndPayload(outro, score); env.parse(Dumps(payload)) == Some(payload)
    ensures EndInterviewsRoute.Handle(req, env, numberPrefix, JStr(""), JStr("")).0
         == Response(200, EndInterviewsRoute.Answer(EndInterviewsRoute.Tally(JStr(outro), ScoreAnswered(score.json, numberPrefix), AudioOf(ai.speech(outro)))))
  {
    EndHandleWhenReady(req, env, numberPrefix, jd, fileName);
    EndServiceReply(env, ai, numberPrefix, jd, env.transcribe(fileName), outro, score);
  }

  /** The Flask error page is answered as a server error naming its status. */
  lemma CrashAnswered(exception: string, parse: string -> Option<Json>, numberPrefix: string -> Json)
    ensures EndInterviewsRoute.ReplyResponse(FromBackend(Backend.Crashed(exception)), parse, numberPrefix)
         == ServerError("Flask server error: " + "INTERNAL SERVER ERROR")
  {
  }

  /** `/api/end-interviews` wired to `/end-interview` as written: every
      request that passes the route's checks is answered 500. */
  lemma EndAsWrittenAlwaysFails(req: InterviewRoute.Request, env: InterviewRoute.Env, ai: Backend.Services, numberPrefix: string -> Json,
                                jd: string, fileName: string)
    requires InterviewRoute.Check(req, env) == InterviewRoute.Ready(jd, fileName)
    requires var form := EndInterviewsRoute.OutboundForm(jd, env.transcribe(fileName), JStr(""), JStr(""));
      env.backend(form) == FromBackend(Backend.EndInterviewAsWritten(form, ai))
    ensures EndInterviewsRoute.Handle(req, env, numberPrefix, JStr(""), JStr("")).0
         == ServerError("Flask server error: " + "INTERNAL SERVER ERROR")
  {
    var form := EndInterviewsRoute.OutboundForm(jd, env.transcribe(fileName), JStr(""), JStr(""));
    EndHandleWhenReady(req, env, numberPrefix, jd, fileName);
    assert Backend.EndInterviewAsWritten(form, ai) == Backend.Crashed("TypeError");
    CrashAnswered("TypeError", env.parse, numberPrefix);
  }

  /** `Trim` keeps a window of its text and drops only white space. */
  lemma TrimWindow(s: string) returns (i: nat, j: nat)
    ensures i <= j <= |s| && Trim(s) == s[i..j]
    ensures forall k :: 0 <= k < i || j <= k < |s| ==> IsJsSpace(s[k])
  {
    var e := TrimEnd(s);
    j := |e|;
    i := j - |TrimStart(e)|;
    assert e == s[..j];
    assert TrimStart(e) == e[i..] == s[i..j];
    forall k | 0 <= k < i ensures IsJsSpace(s[k]) {
      assert s[k] == e[k];
    }
  }

  lemma BinarySlice(b: seq<byte>, i: nat, j: nat)
    requires i <= j <= |b|
    ensures BinaryString(b)[i..j] == BinaryString(b[i..j])
  {
    assert forall k :: 0 <= k < j - i ==> BinaryString(b)[i..j][k] as int == b[i..j][k];
  }

  /** The audio the routes extract plays back as the bytes sent less white
      space at either end: `atob` of it gives those bytes as a binary string,
      and nothing is extracted exactly when no byte is left. */
  lemma AudioPlaysBack(audio: seq<byte>) returns (i: nat, j: nat)
    ensures i <= j <= |audio|
    ensures forall k :: 0 <= k < i || j <= k < |audio| ==> IsJsSpace(BinaryString(audio)[k])
    ensures AudioOf(audio).None? <==> i == j
    ensures AudioOf(audio).Some? ==> Base64.Atob(AudioOf(audio).value) == Some(BinaryString(audio[i..j]))
  {
    i, j := TrimWindow(BinaryString(audio));
    BinarySlice(audio, i, j);
    BytesRoundTrip(audio[i..j]);
    Base64.AtobEncode(audio[i..j]);
  }
}
