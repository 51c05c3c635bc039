/** The Next.js `/api/save-recording` route: it stores an uploaded answer
    under `public/recordings` with a name made from the question number and
    the file's extension. */
module SaveRecording {
  import opened Wrappers
  import opened JsText
  import opened Latin1
  import opened JsonValue
  import opened Http
  import InterviewRoute

  /** An uploaded file: its bytes, its name (`""` when it has none) and its
      MIME type. */
  datatype AudioFile = AudioFile(bytes: seq<byte>, name: string, mime: string)

  /** The form fields the route reads, `None` when absent. */
  datatype Upload = Upload(file: Option<AudioFile>, questionNumber: Option<string>)

  /** `s.lastIndexOf(c)` for a single character. */
  function LastIndexOf(s: string, c: char): (r: int)
    ensures -1 <= r < |s|
    ensures r >= 0 ==> s[r] == c
    ensures forall k :: r < k < |s| ==> s[k] != c
    decreases |s|
  {
    if |s| == 0 then -1
    else if s[|s| - 1] == c then |s| - 1
    else LastIndexOf(s[..|s| - 1], c)
  }

  /** The extension for a MIME type, `""` for any type not listed. */
  function MimeExtension(mime: string): (ext: string)
    ensures ext == "" || (|ext| > 1 && ext[0] == '.' && '.' !in ext[1..])
  {
    if mime == "audio/webm" then ".webm"
    else if mime == "audio/ogg" then ".ogg"
    else if mime == "audio/mp3" || mime == "audio/mpeg" then ".mp3"
    else if mime == "audio/wav" then ".wav"
    else if mime == "audio/mp4" then ".mp4"
    else ""
  }

  /** The extension: from the last `.` of the name when it has one,
      otherwise from the MIME type. */
  function Extension(name: string, mime: string): (ext: string)
    ensures '.' in name ==> |ext| >= 1 && ext[0] == '.' && '.' !in ext[1..]
                            && |ext| <= |name| && name[|name| - |ext|..] == ext
    ensures '.' !in name ==> ext == MimeExtension(mime)
  {
    if '.' in name then
      var i := LastIndexOf(name, '.');
      assert i >= 0 by {
        var j :| 0 <= j < |name| && name[j] == '.';
      }
      name[i..]
    else MimeExtension(mime)
  }

  /** A form field written into a template literal: `null` when absent. */
  function FieldText(m: Option<string>): string
  {
    if m.Some? then m.value else "null"
  }

  /** The name the recording is stored under. */
  function FileName(questionNumber: Option<string>, ext: string): string
  {
    "question_" + FieldText(questionNumber) + "_response" + ext
  }

  /** Different question numbers never give the same file name for the
      same extension. Two names can still reach the same file: see
      `TraversalOverwrites`. */
  lemma FileNameInjective(a: string, b: string, ext: string)
    requires FileName(Some(a), ext) == FileName(Some(b), ext)
    ensures a == b
  {
    var fa, fb := FileName(Some(a), ext), FileName(Some(b), ext);
    assert |a| == |b|;
    assert a == fa[9..9 + |a|];
    assert b == fb[9..9 + |b|];
  }

  /** An absolute path as its segments, from the root of the file system. */
  type Path = seq<string>

  /** A segment `path.normalize` keeps as it is. */
  predicate PlainSegment(seg: string)
  {
    seg != "" && seg != "." && seg != ".."
  }

  predicate Normal(p: Path)
  {
    forall k :: 0 <= k < |p| ==> PlainSegment(p[k])
  }

  /** The segments of a relative path, appended to a normalised path the way
      `path.join` followed by its normalisation does it on POSIX: an empty
      or `.` segment vanishes, `..` removes the segment before it (nothing at
      the root), any other segment is appended. */
  function Walk(from: Path, segs: seq<string>): (r: Path)
    requires Normal(from)
    ensures Normal(r)
    decreases |segs|
  {
    if segs == [] then from
    else if segs[0] == "" || segs[0] == "." then Walk(from, segs[1..])
    else if segs[0] == ".." then Walk(if from == [] then [] else from[..|from| - 1], segs[1..])
    else Walk(from + [segs[0]], segs[1..])
  }

  /** `path.join(dir, name)`. */
  function PathJoin(dir: Path, name: string): Path
    requires Normal(dir)
  {
    Walk(dir, Split(name, "/"))
  }

  /** A name without `/` that is not `.` or `..` is a file of the directory itself. */
  lemma JoinPlainName(dir: Path, name: string)
    requires Normal(dir) && '/' !in name && PlainSegment(name)
    ensures PathJoin(dir, name) == dir + [name]
  {
    AbsentByMissingChar(name, "/", '/');
    SplitCuts(name, "/");
    WalkPlain(dir, name);
  }

  lemma WalkPlain(dir: Path, name: string)
    requires Normal(dir) && PlainSegment(name)
    ensures Walk(dir, [name]) == dir + [name]
  {
    assert [name][1..] == [];
  }

  /** So the file name of a question number without `/` is a file of the
      directory, and different such question numbers give different files. */
  lemma SeparateFiles(dir: Path, a: string, b: string, ext: string)
    requires Normal(dir) && '/' !in a && '/' !in b && '/' !in ext
    ensures PathJoin(dir, FileName(Some(a), ext)) == dir + [FileName(Some(a), ext)]
    ensures a != b ==> PathJoin(dir, FileName(Some(a), ext)) != PathJoin(dir, FileName(Some(b), ext))
  {
    NameWithoutSlash(a, ext);
    NameWithoutSlash(b, ext);
    JoinPlainName(dir, FileName(Some(a), ext));
    JoinPlainName(dir, FileName(Some(b), ext));
    var fa, fb := FileName(Some(a), ext), FileName(Some(b), ext);
    if a != b && (dir + [fa]) == (dir + [fb]) {
      assert (dir + [fa])[|dir|] == fa && (dir + [fb])[|dir|] == fb;
      FileNameInjective(a, b, ext);
    }
  }

  lemma NameWithoutSlash(q: string, ext: string)
    requires '/' !in q && '/' !in ext
    ensures '/' !in FileName(Some(q), ext) && PlainSegment(FileName(Some(q), ext))
  {
    var f := FileName(Some(q), ext);
    assert f == ['q', 'u', 'e', 's', 't', 'i', 'o', 'n', '_'] + q + ['_', 'r', 'e', 's', 'p', 'o', 'n', 's', 'e'] + ext;
    assert f[0] == 'q';
  }

  /** As written, a question number holding `..` reaches another question's
      file: `x/../question_1` overwrites the recording of question 1. */
  lemma TraversalOverwrites(dir: Path, x: string, n: string, ext: string)
    requires Normal(dir) && '/' !in x && '/' !in n && '/' !in ext
    ensures var q := x + "/" + (".." + "/" + ("question_" + n));
      && q != n
      && PathJoin(dir, FileName(Some(q), ext)) == PathJoin(dir, FileName(Some(n), ext))
  {
    var q := x + "/" + (".." + "/" + ("question_" + n));
    assert q[|x|] == '/';
    var seg := "question_" + x;
    QuestionSegment(x);
    assert FileName(Some(q), ext) == seg + "/" + (".." + "/" + FileName(Some(n), ext));
    NameWithoutSlash(n, ext);
    StepBack(dir, seg, FileName(Some(n), ext));
  }

  /** `question_` followed by a text without `/` is a plain segment. */
  lemma QuestionSegment(x: string)
    requires '/' !in x
    ensures '/' !in "question_" + x && PlainSegment("question_" + x)
  {
    var seg := "question_" + x;
    assert seg == ['q', 'u', 'e', 's', 't', 'i', 'o', 'n', '_'] + x;
    assert seg[0] == 'q' && |seg| > 2;
  }

  /** `seg/../last` joined to a directory is `last` in it. */
  lemma StepBack(dir: Path, seg: string, last: string)
    requires Normal(dir) && '/' !in seg && PlainSegment(seg) && '/' !in last && PlainSegment(last)
    ensures PathJoin(dir, seg + "/" + (".." + "/" + last)) == PathJoin(dir, last)
  {
    var up := "..";
    assert up == ['.', '.'] && '/' !in up;
    SplitSlash(seg, up + "/" + last);
    SplitSlash(up, last);
    LastSegment(last);
    assert Split(seg + "/" + (up + "/" + last), "/") == [seg, up] + [last];
    JoinPlainName(dir, last);
    WalkBack(dir, seg, [last]);
    WalkPlain(dir, last);
  }

  lemma TwoUps(seg: string, last: string)
    requires '/' !in seg && seg != [] && '/' !in last
    ensures Split(seg + "/" + (".." + "/" + (".." + "/" + last)), "/") == [seg, ".."] + ["..", last]
  {
    var up := "..";
    assert up == ['.', '.'] && '/' !in up;
    var r3 := up + "/" + last;
    var r2 := up + "/" + r3;
    SplitSlash(seg, r2);
    SplitSlash(up, r3);
    SplitSlash(up, last);
    LastSegment(last);
  }

  lemma UpFromTop(dir: Path, top: string, last: string)
    requires Normal(dir) && PlainSegment(top) && PlainSegment(last)
    ensures Walk(dir + [top], ["..", last]) == Walk(dir, [last])
  {
    assert ["..", last][1..] == [last];
    assert (dir + [top])[..|dir|] == dir;
  }

  /** A segment followed by `..` is as if neither were there. */
  lemma WalkBack(from: Path, seg: string, rest: seq<string>)
    requires Normal(from) && PlainSegment(seg)
    ensures Walk(from, [seg, ".."] + rest) == Walk(from, rest)
  {
    assert ([seg, ".."] + rest)[1..] == [".."] + rest;
    assert ([".."] + rest)[1..] == rest;
    assert (from + [seg])[..|from|] == from;
  }

  /** And one holding two `..` leaves the recordings directory: `x/../../y`
      writes `public/y_response.webm`, a file the site serves. */
  lemma TraversalEscapes(cwd: Path, x: string, y: string, ext: string)
    requires Normal(cwd) && '/' !in x && '/' !in y && '/' !in ext
    ensures Normal(cwd + ["public", "recordings"])
    ensures var q := x + "/" + (".." + "/" + (".." + "/" + y));
      PathJoin(cwd + ["public", "recordings"], FileName(Some(q), ext)) == cwd + ["public", y + "_response" + ext]
  {
    var q := x + "/" + (".." + "/" + (".." + "/" + y));
    var seg, last := "question_" + x, y + "_response" + ext;
    QuestionSegment(x);
    ResponseSegment(y, ext);
    assert FileName(Some(q), ext) == seg + "/" + (".." + "/" + (".." + "/" + last));
    PublicRecordings(cwd);
    StepsBackTwice(cwd + ["public"], "recordings", seg, last);
    assert cwd + ["public", "recordings"] == (cwd + ["public"]) + ["recordings"];
  }

  /** `public/recordings` under a normalised directory is normalised. */
  lemma PublicRecordings(cwd: Path)
    requires Normal(cwd)
    ensures Normal(cwd + ["public"]) && PlainSegment("recordings") && Normal(cwd + ["public", "recordings"])
  {
    assert "public" == ['p', 'u', 'b', 'l', 'i', 'c'];
    assert "recordings" == ['r', 'e', 'c', 'o', 'r', 'd', 'i', 'n', 'g', 's'];
  }

  /** `<y>_response<ext>` without `/` is a plain segment. */
  lemma ResponseSegment(y: string, ext: string)
    requires '/' !in y && '/' !in ext
    ensures '/' !in y + "_response" + ext && PlainSegment(y + "_response" + ext)
  {
    var last := y + "_response" + ext;
    assert last == y + ['_', 'r', 'e', 's', 'p', 'o', 'n', 's', 'e'] + ext;
    assert last[|y|] == '_' && |last| > 2;
  }

  /** `seg/../../last` joined to `dir/top` is `last` in `dir`. */
  lemma StepsBackTwice(dir: Path, top: string, seg: string, last: string)
    requires Normal(dir) && PlainSegment(top)
    requires '/' !in seg && PlainSegment(seg) && '/' !in last && PlainSegment(last)
    ensures PathJoin(dir + [top], seg + "/" + (".." + "/" + (".." + "/" + last))) == dir + [last]
  {
    TwoUps(seg, last);
    WalkBack(dir + [top], seg, ["..", last]);
    UpFromTop(dir, top, last);
    WalkPlain(dir, last);
  }

  /** Splitting `a/rest` where `a` holds no `/`. */
  lemma SplitSlash(a: string, rest: string)
    requires '/' !in a && a != []
    ensures Split(a + "/" + rest, "/") == [a] + Split(rest, "/")
  {
    AbsentByMissingChar(a, "/", '/');
    SplitAfter(a, "/", rest);
  }

  /** A text without `/` is one segment. */
  lemma LastSegment(rest: string)
    requires '/' !in rest
    ensures Split(rest, "/") == [rest]
  {
    AbsentByMissingChar(rest, "/", '/');
    SplitCuts(rest, "/");
  }

  function Saved(fileName: string): (r: Response)
    ensures r.status == 200
  {
    Response(200, JObj([("success", JBool(true)), ("filePath", JStr("/recordings/" + fileName)),
                        ("message", JStr("File saved as " + fileName))]))
  }

  function NoFile(): (r: Response)
    ensures r.status == 400
  {
    Response(400, JObj([("error", JStr("No audio file provided"))]))
  }

  /** The answer's own name, as the session page gives it, keeps its
      `.webm` extension and is exactly the name `/api/interview` looks up. */
  lemma UploadFoundByInterview(n: nat, mime: string)
    ensures var name := "question_" + NatToString(n) + "_response.webm";
      FileName(Some(NatToString(n)), Extension(name, mime)) == InterviewRoute.RecordingName(NatToString(n))
  {
    var stem := "question_" + NatToString(n) + "_response";
    var name := "question_" + NatToString(n) + "_response.webm";
    assert "_response.webm" == "_response" + ".webm";
    assert name == stem + ".webm";
    assert name[|stem|..] == ".webm";
    assert '.' in name by { assert name[|stem|] == '.'; }
    DotSuffix(name, Extension(name, mime), ".webm");
    assert FileName(Some(NatToString(n)), ".webm") == stem + ".webm";
  }

  /** A suffix that starts at a `.` and holds no other is the part from the
      last `.` on. */
  lemma DotSuffix(name: string, ext: string, tail: string)
    requires |tail| >= 1 && tail[0] == '.' && '.' !in tail[1..] && |tail| <= |name| && name[|name| - |tail|..] == tail
    requires |ext| >= 1 && ext[0] == '.' && '.' !in ext[1..] && |ext| <= |name| && name[|name| - |ext|..] == ext
    ensures ext == tail
  {
  }

  /** A file name that would leave the directory: one holding `/`. */
  function InvalidName(): (r: Response)
    ensures r.status == 400
  {
    Response(400, JObj([("error", JStr("Invalid file name"))]))
  }

  /** The `public/recordings` directory under the working directory `cwd`,
      and the files of the file system by path. */
  class RecordingsDir {
    const dir: Path
    var files: map<Path, seq<byte>>

    constructor(cwd: Path)
      requires Normal(cwd)
      ensures dir == cwd + ["public", "recordings"] && Normal(dir) && files == map[]
    {
      dir := cwd + ["public", "recordings"];
      files := map[];
    }

    /** `POST /api/save-recording` as written: a missing file gives 400 and
        writes nothing; otherwise the bytes replace whatever was at the path
        `path.join` makes of the directory and the file name, and nothing
        else changes. */
    method Save(upload: Upload) returns (response: Response)
      requires Normal(dir)
      modifies this
      ensures upload.file.None? ==> response == NoFile() && files == old(files)
      ensures upload.file.Some? ==>
        var fileName := FileName(upload.questionNumber, Extension(upload.file.value.name, upload.file.value.mime));
        && response == Saved(fileName)
        && files == old(files)[PathJoin(dir, fileName) := upload.file.value.bytes]
    {
      if upload.file.None? {
        return NoFile();
      }
      var file := upload.file.value;
      var ext := "";
      if '.' in file.name {
        ext := file.name[LastIndexOf(file.name, '.')..];
      } else if file.mime != "" {
        ext := MimeExtension(file.mime);
      }
      var fileName := "question_" + FieldText(upload.questionNumber) + "_response" + ext;
      files := files[PathJoin(dir, fileName) := file.bytes];
      response := Saved(fileName);
    }

    /** The route as intended: a question number or an extension holding
        `/` is refused, so every recording is a file of the directory
        itself, named after its question, and nothing else changes. */
    method SaveChecked(upload: Upload) returns (response: Response)
      requires Normal(dir)
      modifies this
      ensures upload.file.None? ==> response == NoFile() && files == old(files)
      ensures upload.file.Some? ==>
        var ext := Extension(upload.file.value.name, upload.file.value.mime);
        var fileName := FileName(upload.questionNumber, ext);
        && ('/' in FieldText(upload.questionNumber) || '/' in ext ==> response == InvalidName() && files == old(files))
        && ('/' !in FieldText(upload.questionNumber) && '/' !in ext ==>
              response == Saved(fileName) && files == old(files)[dir + [fileName] := upload.file.value.bytes])
    {
      if upload.file.None? {
        return NoFile();
      }
      var q := FieldText(upload.questionNumber);
      var ext := Extension(upload.file.value.name, upload.file.value.mime);
      if '/' in q || '/' in ext {
        return InvalidName();
      }
      response := Save(upload);
      SeparateFiles(dir, q, q, ext);
      assert FileName(upload.questionNumber, ext) == FileName(Some(q), ext);
    }
  }
}
