/** The job description both interview routes send to the Flask service,
    built from the job document with a template literal and trimmed. */
module JobDescription {
  import opened Wrappers
  import opened JsText
  import opened JsonValue

  /** `requirements` and `skills`: an array joined with ", ", anything
      else written as itself, or "" when falsy. */
  function ListText(m: Option<Json>): string
  {
    if m.Some? && m.value.JArr? then JoinItems(m.value.items, ", ")
    else Interpolate(OrElse(m, Some(JStr(""))))
  }

  /** The template's lines, from `Title:` to the experience level. Each
      alternative takes the first field when it is truthy. */
  function Lines(doc: seq<(string, Json)>): string
  {
    Head(doc) + " " + Level(doc)
  }

  /** `${jobDocument.experienceLevel || ""}`. */
  function Level(doc: seq<(string, Json)>): string
  {
    Interpolate(OrElse(Get(doc, "experienceLevel"), Some(JStr(""))))
  }

  /** Everything up to and including `Experience Level:`. */
  function Head(doc: seq<(string, Json)>): (r: string)
    ensures |r| > 0 && r[0] == 'T' && r[|r| - 1] == ':'
  {
    "Title: " + Interpolate(OrElse(Get(doc, "title"), Get(doc, "role")))
    + "\nCompany: " + Interpolate(OrElse(Get(doc, "company"), Get(doc, "companyName")))
    + "\nLocation: " + Interpolate(Get(doc, "location"))
    + "\nType: " + Interpolate(OrElse(Get(doc, "type"), Get(doc, "jobType")))
    + "\nSalary: " + Interpolate(Get(doc, "salary"))
    + "\nDescription: " + Interpolate(Get(doc, "description"))
    + "\nRequirements: " + ListText(Get(doc, "requirements"))
    + "\nSkills: " + ListText(Get(doc, "skills"))
    + "\nExperience Level:"
  }

  /** The description sent: the template (a line break, the lines, a line
      break and indentation) trimmed. That drops the leading line break and
      the white space at the end, and nothing else. */
  function Build(doc: seq<(string, Json)>): (r: string)
    ensures r == TrimEnd(Lines(doc))
  {
    var lines := Lines(doc);
    TrimTemplate(lines);
    Trim("\n" + lines + "\n    ")
  }

  lemma TrimTemplate(lines: string)
    requires |lines| > 0 && !IsJsSpace(lines[0])
    ensures Trim("\n" + lines + "\n    ") == TrimEnd(lines)
  {
    TrimEndTemplate(lines);
    KeepsNonSpace(lines, 0);
    DropLeadingBreak(TrimEnd(lines));
  }

  lemma TrimEndTemplate(lines: string)
    requires |lines| > 0 && !IsJsSpace(lines[0])
    ensures TrimEnd("\n" + lines + "\n    ") == "\n" + TrimEnd(lines)
  {
    var w := "\n    ";
    assert AllSpace(w) by {
      assert w == ['\n', ' ', ' ', ' ', ' '];
      assert IsJsSpace('\n') && IsJsSpace(' ');
    }
    TrimEndBetweenSpace("\n", lines, w);
  }

  lemma TrimEndBetweenSpace(a: string, lines: string, w: string)
    requires |lines| > 0 && !IsJsSpace(lines[0]) && AllSpace(w)
    ensures TrimEnd(a + lines + w) == a + TrimEnd(lines)
  {
    var nl := a + lines;
    TrimEndAppendSpace(nl, w);
    var e := TrimEnd(lines);
    assert nl[..|a| + |e|] == a + e;
    assert forall k :: |a| + |e| <= k < |nl| ==> nl[k] == lines[k - |a|];
    TrimEndUnique(nl, a + e);
  }

  lemma DropLeadingBreak(e: string)
    requires |e| > 0 && !IsJsSpace(e[0])
    ensures TrimStart("\n" + e) == e
  {
    assert ("\n" + e)[1..] == e;
    TrimStartUnique("\n" + e, e);
  }

  /** So the description is every template line up to `Experience Level:`
      as written, followed by a space and the level without its trailing
      white space; a level that is empty or all white space leaves the
      description ending at the colon. */
  lemma BuildKeepsHead(doc: seq<(string, Json)>)
    ensures TrimEnd(Level(doc)) == [] ==> Build(doc) == Head(doc)
    ensures TrimEnd(Level(doc)) != [] ==> Build(doc) == Head(doc) + " " + TrimEnd(Level(doc))
  {
    var h, v := Head(doc), Level(doc);
    assert Lines(doc) == (h + " ") + v;
    TrimEndJoin(h + " ", v);
    if TrimEnd(v) == [] {
      assert (h + " ")[..|h|] == h;
      TrimEndUnique(h + " ", h);
    }
  }

  /** What `trimEnd` keeps of `a + b`: `a` and the kept part of `b`, or,
      when all of `b` is white space, the kept part of `a`. */
  lemma TrimEndJoin(a: string, b: string)
    ensures TrimEnd(b) != [] ==> TrimEnd(a + b) == a + TrimEnd(b)
    ensures TrimEnd(b) == [] ==> TrimEnd(a + b) == TrimEnd(a)
  {
    var e := TrimEnd(b);
    if e != [] {
      assert (a + b)[..|a| + |e|] == a + e;
      assert forall k :: |a| + |e| <= k < |a + b| ==> (a + b)[k] == b[k - |a|];
      TrimEndUnique(a + b, a + e);
    } else {
      TrimEndAppendSpace(a, b);
    }
  }

  /** `trimEnd` keeps every character up to the last one that is not white space. */
  lemma KeepsNonSpace(s: string, k: int)
    requires 0 <= k < |s| && !IsJsSpace(s[k])
    ensures |TrimEnd(s)| > k
  {
  }

  /** A prefix followed only by white space and ending in a character that is
      not white space is what `trimEnd` keeps. */
  lemma TrimEndUnique(s: string, r: string)
    requires |r| <= |s| && r == s[..|r|]
    requires forall k :: |r| <= k < |s| ==> IsJsSpace(s[k])
    requires r == [] || !IsJsSpace(r[|r| - 1])
    ensures TrimEnd(s) == r
  {
  }

  /** Dually for `trimStart`. */
  lemma TrimStartUnique(s: string, r: string)
    requires |r| <= |s| && r == s[|s| - |r|..]
    requires forall k :: 0 <= k < |s| - |r| ==> IsJsSpace(s[k])
    requires r == [] || !IsJsSpace(r[0])
    ensures TrimStart(s) == r
  {
  }
}
