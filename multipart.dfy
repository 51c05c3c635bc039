/** How the Next.js routes take a `multipart/mixed` reply apart: the
    boundary is whatever follows the first `boundary=` in the declared type,
    the body is read as a binary string and split at `--boundary`, and each
    piece is classified by searching it for `application/json`, then for
    `audio/mpeg`. */
module Multipart {
  import opened Wrappers
  import opened JsText
  import opened Latin1
  import opened JsonValue
  import Base64

  const BlankLine: string := "\r\n\r\n"

  /** `contentType.split("boundary=")[1]`, when that is a non-empty text. */
  function BoundaryOf(contentType: string): (r: Option<string>)
    ensures r.Some? ==> r.value != "" && IndexOf(r.value, "boundary=") == -1
    ensures r.Some? ==> Includes(contentType, "boundary=" + r.value)
    ensures !Includes(contentType, "boundary=") ==> r.None?
  {
    var pieces := Split(contentType, "boundary=");
    if |pieces| >= 2 && pieces[1] != "" then
      SplitShape(contentType, "boundary=");
      Some(pieces[1])
    else None
  }

  /** When the text holds the separator, it is the first piece, the
      separator, the second piece and whatever follows. */
  lemma SplitShape(s: string, sep: string)
    requires |sep| > 0 && |Split(s, sep)| >= 2
    ensures Includes(s, sep)
    ensures Includes(s, sep + Split(s, sep)[1])
  {
    var i := SplitSecond(s, sep);
  }

  /** Where the second piece sits: right after the first occurrence. */
  lemma SplitSecond(s: string, sep: string) returns (i: int)
    requires |sep| > 0 && |Split(s, sep)| >= 2
    ensures OccursAt(s, sep, i)
    ensures OccursAt(s, sep + Split(s, sep)[1], i)
  {
    i := IndexOf(s, sep);
    var rest := s[i + |sep|..];
    var p := Split(rest, sep);
    assert Split(s, sep) == [s[..i]] + p;
    JoinPrefix(p, sep);
    OccursBefore(s, sep, i, p[0]);
  }

  /** An occurrence followed by a text gives an occurrence of both. */
  lemma OccursBefore(s: string, sep: string, i: int, t: string)
    requires OccursAt(s, sep, i)
    requires |t| <= |s[i + |sep|..]| && s[i + |sep|..][..|t|] == t
    ensures OccursAt(s, sep + t, i)
  {
    var m, j := i + |sep|, i + |sep| + |t|;
    assert s[m..j] == s[m..][..|t|];
    assert s[i..j] == s[i..m] + s[m..j];
  }

  /** The first piece begins a join. */
  lemma JoinPrefix(parts: seq<string>, sep: string)
    requires |parts| >= 1
    ensures |parts[0]| <= |Join(parts, sep)| && Join(parts, sep)[..|parts[0]|] == parts[0]
  {
    if |parts| > 1 {
      assert Join(parts, sep) == parts[0] + (sep + Join(parts[1..], sep));
    }
  }

  /** The pieces of the body between occurrences of `--boundary`. */
  function Parts(body: seq<byte>, boundary: string): seq<string>
  {
    Split(BinaryString(body), "--" + boundary)
  }

  /** The JSON text of a part: the piece between its first and second blank
      line, trimmed, when that piece is not empty. */
  function JsonText(part: string): (r: Option<string>)
    ensures r.Some? ==> Includes(part, BlankLine)
  {
    var pieces := Split(part, BlankLine);
    if |pieces| >= 2 && pieces[1] != "" then
      SplitShape(part, BlankLine);
      Some(Trim(pieces[1]))
    else None
  }

  /** The audio of a part, base64-encoded: everything after its first blank
      line, trimmed, read back as bytes; nothing when that is empty. */
  function AudioBase64(part: string): (r: Option<string>)
    ensures r.Some? ==> Includes(part, BlankLine)
  {
    var idx := IndexOf(part, BlankLine);
    if idx == -1 then None
    else
      var data := Trim(part[idx + 4..]);
      if data == "" then None else Some(Base64.Encode(FromBinary(data)))
  }

  datatype PartKind = JsonKind(text: Option<string>) | AudioKind(base64: Option<string>) | OtherKind

  /** A part is JSON when it mentions `application/json` anywhere, audio when
      it does not but mentions `audio/mpeg`, and ignored otherwise. */
  function Classify(part: string): (k: PartKind)
    ensures k.JsonKind? <==> Includes(part, "application/json")
    ensures k.AudioKind? <==> !Includes(part, "application/json") && Includes(part, "audio/mpeg")
    ensures k.JsonKind? ==> k.text == JsonText(part)
    ensures k.AudioKind? ==> k.base64 == AudioBase64(part)
  {
    if Includes(part, "application/json") then JsonKind(JsonText(part))
    else if Includes(part, "audio/mpeg") then AudioKind(AudioBase64(part))
    else OtherKind
  }

  /** The `audio` field of a route's answer. */
  function AudioJson(audio: Option<string>): Json
  {
    if audio.Some? then JStr(audio.value) else JNull
  }
}
