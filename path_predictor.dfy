/** The career-path page of the candidate area: how the recommendations the
    path-prediction service returns are mapped to the cards the page draws
    (`mapApiToCareerPaths` with its inner `toArray`), and the check in
    `handleAnalyze` that refuses an empty recommendation list. */
module PathPredictor {
  import opened Wrappers
  import opened JsText
  import opened Sequences

  /** A roadmap entry as the service may send it: absent, a text, or a list
      of texts. */
  datatype Field = Absent | Text(text: string) | Items(items: seq<string>)

  /** JavaScript truthiness of a roadmap entry: a list is truthy even when
      empty, a text only when not empty. */
  predicate Truthy(f: Field)
  {
    f.Items? || (f.Text? && f.text != "")
  }

  /** `a || b` on roadmap entries. */
  function OrField(a: Field, b: Field): (r: Field)
    ensures Truthy(a) ==> r == a
    ensures !Truthy(a) ==> r == b
  {
    if Truthy(a) then a else b
  }

  /** `rec.roadmap`, a missing roadmap standing for `{}`: every entry absent. */
  datatype Roadmap = Roadmap(immediateSteps: Field, longTerm: Field, skillsToLearn: Field, certifications: Field)

  /** One recommendation; `careerPath` and `whyItFits` may be missing. */
  datatype Recommendation = Recommendation(careerPath: Option<string>, whyItFits: Option<string>, roadmap: Roadmap)

  /** The card the page draws for one recommendation. */
  datatype CareerPath = CareerPath(
    title: string,
    fitExplanation: string,
    immediateSteps: seq<string>,
    longTermSteps: seq<string>,
    matchPercentage: int,
    salaryRange: string,
    growthPotential: string,
    icon: string,
    color: string,
    x: int,
    y: int,
    skills: seq<string>)

  /** The characters a run of which separates the steps of a text roadmap
      entry: line feed, carriage return, bullet, hyphen, period, semicolon. */
  predicate IsStepSeparator(c: char)
  {
    c == '\n' || c == '\r' || c == '•' || c == '-' || c == '.' || c == ';'
  }

  predicate SeparatorFree(s: string)
  {
    forall k :: 0 <= k < |s| ==> !IsStepSeparator(s[k])
  }

  /** `s.split(/(?:\n|\r|•|-|\.|;)+/)`: the texts between maximal runs
      of separators, with an empty first piece when the text starts with a
      run and an empty last piece when it ends with one. */
  function Fields(s: string): (r: seq<string>)
    ensures |r| >= 1
    ensures forall k :: 0 <= k < |r| ==> SeparatorFree(r[k])
    ensures s != [] && !IsStepSeparator(s[0]) ==> r[0] != [] && r[0][0] == s[0]
    decreases |s|
  {
    if s == [] then [""]
    else if !IsStepSeparator(s[0]) then
      var rest := Fields(s[1..]);
      [[s[0]] + rest[0]] + rest[1..]
    else if |s| > 1 && IsStepSeparator(s[1]) then Fields(s[1..])
    else [""] + Fields(s[1..])
  }

  function Concat(parts: seq<string>): string
  {
    if parts == [] then "" else parts[0] + Concat(parts[1..])
  }

  /** The text with every separator character dropped. */
  function WithoutSeparators(s: string): (r: string)
    ensures SeparatorFree(r)
  {
    if s == [] then ""
    else if IsStepSeparator(s[0]) then WithoutSeparators(s[1..])
    else [s[0]] + WithoutSeparators(s[1..])
  }

  /** Splitting loses only the separators: the pieces, put back together,
      are the text without them. */
  lemma {:induction false} FieldsKeepText(s: string)
    ensures Concat(Fields(s)) == WithoutSeparators(s)
    decreases |s|
  {
    if s == [] {
    } else {
      FieldsKeepText(s[1..]);
      var rest := Fields(s[1..]);
      if !IsStepSeparator(s[0]) {
        var r := [[s[0]] + rest[0]] + rest[1..];
        assert r[1..] == rest[1..];
        assert rest == [rest[0]] + rest[1..];
        assert Concat(rest) == rest[0] + Concat(rest[1..]);
      } else if |s| > 1 && IsStepSeparator(s[1]) {
      } else {
        var r := [""] + rest;
        assert r[1..] == rest;
      }
    }
  }

  /** The pieces with the separator runs between them: `p[0] + w[0] + p[1]
      + ... + p[|p| - 1]`. */
  function Weave(p: seq<string>, w: seq<string>): string
    requires |p| == |w| + 1
    decreases |w|
  {
    if w == [] then p[0] else p[0] + w[0] + Weave(p[1..], w[1..])
  }

  /** A way of cutting a text at maximal separator runs: separator-free
      pieces, non-empty runs of separators between them, and no empty piece
      except possibly the first and the last. */
  predicate CutAtRuns(p: seq<string>, w: seq<string>)
  {
    && |p| == |w| + 1
    && (forall k :: 0 <= k < |p| ==> SeparatorFree(p[k]))
    && (forall k :: 0 <= k < |w| ==> w[k] != [] && forall j :: 0 <= j < |w[k]| ==> IsStepSeparator(w[k][j]))
    && (forall k :: 0 < k < |p| - 1 ==> p[k] != [])
  }

  /** The regex split cuts exactly at the maximal runs of separators: any
      cutting of the text at such runs gives the pieces `Fields` returns. */
  lemma {:induction false} FieldsUnique(s: string, p: seq<string>, w: seq<string>)
    requires CutAtRuns(p, w) && s == Weave(p, w)
    ensures Fields(s) == p
    decreases |s|
  {
    if s == [] {
    } else if !IsStepSeparator(s[0]) {
      var p' := TextFirst(s, p, w);
      FieldsUnique(s[1..], p', w);
    } else {
      RunFirst(s, p, w);
      if |w[0]| > 1 {
        var w' := LongRun(s, p, w);
        FieldsUnique(s[1..], p, w');
      } else {
        RunEnds(s, p, w);
        FieldsUnique(s[1..], p[1..], w[1..]);
      }
    }
  }

  /** A text starting with a kept character: the first piece starts with it,
      and the rest of the text is cut the same way with that piece shortened. */
  lemma TextFirst(s: string, p: seq<string>, w: seq<string>) returns (p': seq<string>)
    requires CutAtRuns(p, w) && s == Weave(p, w) && s != [] && !IsStepSeparator(s[0])
    ensures CutAtRuns(p', w) && Weave(p', w) == s[1..]
    ensures p == [[s[0]] + p'[0]] + p'[1..]
  {
    p' := [p[0][1..]] + p[1..];
    if w != [] {
      assert s == p[0] + (w[0] + Weave(p[1..], w[1..]));
      assert p'[1..] == p[1..];
    }
    assert s[0] == p[0][0];
    assert forall k :: 0 < k < |p'| ==> p'[k] == p[k];
    assert p[0] == [s[0]] + p'[0];
    assert p == [p[0]] + p[1..];
  }

  /** A text starting with a separator starts with the first run. */
  lemma RunFirst(s: string, p: seq<string>, w: seq<string>)
    requires CutAtRuns(p, w) && s == Weave(p, w) && s != [] && IsStepSeparator(s[0])
    ensures p[0] == [] && w != [] && s == w[0] + Weave(p[1..], w[1..])
  {
  }

  /** A run longer than one character: the rest of the text is cut the same
      way with that run shortened, and also starts with a separator. */
  lemma LongRun(s: string, p: seq<string>, w: seq<string>) returns (w': seq<string>)
    requires CutAtRuns(p, w) && p[0] == [] && w != [] && |w[0]| > 1
    requires s == w[0] + Weave(p[1..], w[1..])
    ensures CutAtRuns(p, w') && Weave(p, w') == s[1..]
    ensures |s| > 1 && IsStepSeparator(s[1])
  {
    w' := w[0 := w[0][1..]];
    assert w'[1..] == w[1..];
    assert forall k :: 0 < k < |w'| ==> w'[k] == w[k];
    assert s[1] == w[0][1];
  }

  /** A run of one character: the rest of the text is the other pieces, and
      starts with a kept character or is empty. */
  lemma RunEnds(s: string, p: seq<string>, w: seq<string>)
    requires CutAtRuns(p, w) && p[0] == [] && w != [] && |w[0]| == 1
    requires s == w[0] + Weave(p[1..], w[1..])
    ensures CutAtRuns(p[1..], w[1..]) && s[1..] == Weave(p[1..], w[1..])
    ensures |s| == 1 || !IsStepSeparator(s[1])
    ensures p == [""] + p[1..]
  {
    var t := Weave(p[1..], w[1..]);
    assert s[1..] == t;
    assert forall k :: 0 <= k < |p| - 1 ==> p[1..][k] == p[k + 1];
    assert forall k :: 0 <= k < |w| - 1 ==> w[1..][k] == w[k + 1];
    if t != [] {
      if |w| > 1 {
        assert p[1] != [];
        assert t == p[1] + (w[1] + Weave(p[2..], w[2..]));
        assert t[0] == p[1][0];
      } else {
        assert t == p[1];
      }
    }
  }

  /** Trimming keeps a piece of the text, so it adds no separator. */
  lemma TrimSeparatorFree(s: string)
    requires SeparatorFree(s)
    ensures SeparatorFree(Trim(s))
  {
    var e := TrimEnd(s);
    assert forall k :: 0 <= k < |e| ==> e[k] == s[k];
    var t := TrimStart(e);
    assert forall k :: 0 <= k < |t| ==> t[k] == e[|e| - |t| + k];
  }

  /** A kept step: longer than ten characters, trimmed, no separator. */
  predicate GoodStep(s: string)
  {
    |s| > 10 && SeparatorFree(s) && !IsJsSpace(s[0]) && !IsJsSpace(s[|s| - 1])
  }

  /** `.map((s) => s.trim()).filter((s) => s.length > 10)`. */
  function LongTrimmed(pieces: seq<string>): (r: seq<string>)
    requires forall k :: 0 <= k < |pieces| ==> SeparatorFree(pieces[k])
    ensures |r| <= |pieces|
    ensures forall k :: 0 <= k < |r| ==> GoodStep(r[k])
  {
    if pieces == [] then []
    else
      var t := Trim(pieces[0]);
      TrimSeparatorFree(pieces[0]);
      var rest := LongTrimmed(pieces[1..]);
      if |t| > 10 then [t] + rest else rest
  }

  /** `toArray`: nothing for a falsy entry; a list without its empty texts;
      a text cut into at most three trimmed steps of more than ten
      characters, none holding a separator. */
  function ToArray(f: Field): (r: seq<string>)
    ensures forall k :: 0 <= k < |r| ==> r[k] != ""
    ensures !Truthy(f) ==> r == []
    ensures f.Items? ==> IsSubsequence(r, f.items)
    ensures f.Items? ==> forall t :: multiset(r)[t] == if t != "" then multiset(f.items)[t] else 0
    ensures f.Text? ==> |r| <= 3 && forall k :: 0 <= k < |r| ==> GoodStep(r[k])
  {
    match f
    case Absent => []
    case Items(items) => NonEmpty(items)
    case Text(s) => if s == "" then [] else TextSteps(s)
  }

  /** A text cut into steps: at most the first three kept pieces. */
  function TextSteps(s: string): (r: seq<string>)
    ensures |r| <= 3 && forall k :: 0 <= k < |r| ==> GoodStep(r[k])
  {
    var kept := LongTrimmed(Fields(s));
    if |kept| <= 3 then kept else kept[..3]
  }

  /** `v.filter(Boolean)` on a list of texts: the non-empty entries, in
      order, each as often as listed. */
  function NonEmpty(items: seq<string>): (r: seq<string>)
    ensures IsSubsequence(r, items)
    ensures forall t :: multiset(r)[t] == if t != "" then multiset(items)[t] else 0
  {
    var nonEmpty := (t: string) => t != "";
    FilterKeeps(items, nonEmpty);
    Filter(items, nonEmpty)
  }

  const DefaultImmediateSteps: seq<string> := [
    "Enhance relevant skills through online courses and practice projects",
    "Build a professional network in your target industry",
    "Update your resume and LinkedIn profile to highlight relevant experience"]

  const DefaultLongTermSteps: seq<string> := [
    "Pursue leadership opportunities and mentor others in your field",
    "Consider advanced certifications or specialized training",
    "Develop strategic thinking and business acumen for senior roles"]

  predicate HasLongStep(steps: seq<string>)
  {
    exists k :: 0 <= k < |steps| && |steps[k]| >= 15
  }

  /** The in-place refill: a list that is empty or holds only steps shorter
      than fifteen characters is cleared and replaced by the defaults;
      otherwise it is kept as it is. */
  function Refill(steps: seq<string>, defaults: seq<string>): (r: seq<string>)
    ensures HasLongStep(steps) ==> r == steps
    ensures !HasLongStep(steps) ==> r == defaults
  {
    if |steps| == 0 || forall k :: 0 <= k < |steps| ==> |steps[k]| < 15 then defaults else steps
  }

  /** Both fixed default lists have a step of fifteen characters or more. */
  lemma DefaultsAreLong()
    ensures HasLongStep(DefaultImmediateSteps) && HasLongStep(DefaultLongTermSteps)
    ensures |DefaultImmediateSteps| == 3 && |DefaultLongTermSteps| == 3
  {
    assert |DefaultImmediateSteps[1]| >= 15;
    assert |DefaultLongTermSteps[1]| >= 15;
  }

  /** A roadmap section after the refill is never empty and always has a
      step of fifteen characters or more; a section that had one is kept. */
  lemma SectionsNeverEmpty(f: Field, defaults: seq<string>)
    requires defaults == DefaultImmediateSteps || defaults == DefaultLongTermSteps
    ensures var r := Refill(ToArray(f), defaults);
      && r != [] && HasLongStep(r)
      && (HasLongStep(ToArray(f)) ==> r == ToArray(f))
  {
    DefaultsAreLong();
  }

  /** The position on the map: `20 + (i*23 % 60)` across, `25 + (i*31 % 50)` down. */
  function Position(index: nat): (r: (int, int))
    ensures 20 <= r.0 <= 79 && 25 <= r.1 <= 74
  {
    (20 + (index * 23) % 60, 25 + (index * 31) % 50)
  }

  /** `Math.max(60, 70 + (i*7 % 25))`: the floor of 60 is never reached. */
  function MatchPercentage(index: nat): (r: int)
    ensures 70 <= r <= 94
    ensures r == 70 + (index * 7) % 25
  {
    var raw := 70 + (index * 7) % 25;
    if raw >= 60 then raw else 60
  }

  const Icons: seq<string> := ["🎯", "📊", "⚡", "🚀", "🌟", "🔗", "💡", "🛠️", "🎉", "🎊"]

  const Colors: seq<string> := [
    "from-emerald-400 to-teal-500",
    "from-blue-400 to-indigo-500",
    "from-purple-400 to-pink-500",
    "from-yellow-400 to-orange-500",
    "from-red-400 to-rose-500",
    "from-cyan-400 to-blue-500",
    "from-green-400 to-teal-500",
    "from-pink-400 to-purple-500",
    "from-orange-400 to-red-500",
    "from-gray-400 to-slate-500"]

  /** The icon and colour of a card: the lists are walked round and round. */
  function Look(index: nat): (r: (string, string))
    ensures r.0 in Icons && r.1 in Colors
  {
    (Icons[index % |Icons|], Colors[index % |Colors|])
  }

  /** Cards ten places apart look the same; neighbouring cards do not share
      a colour. */
  lemma LookCycles(index: nat)
    ensures Look(index + 10) == Look(index)
    ensures Look(index + 1).1 != Look(index).1
  {
    var c := index % 10;
    assert (index + 10) % 10 == c;
    assert (index + 1) % 10 == if c == 9 then 0 else c + 1;
  }

  const DataSkills: seq<string> := ["Data Analysis", "SQL", "Python", "Visualization"]
  const DevelopSkills: seq<string> := ["Programming", "Problem Solving", "Testing", "Collaboration"]
  const ManageSkills: seq<string> := ["Leadership", "Communication", "Planning", "Strategy"]
  const GeneralSkills: seq<string> := ["Communication", "Problem Solving", "Analysis", "Collaboration"]

  /** The default skills of a title, chosen by the first of "data",
      "develop", "manage" its lower-case form contains. */
  function DefaultSkills(title: string): (r: seq<string>)
    ensures |r| == 4
    ensures Includes(ToLower(title), "data") ==> r == DataSkills
    ensures !Includes(ToLower(title), "data") && Includes(ToLower(title), "develop") ==> r == DevelopSkills
    ensures !Includes(ToLower(title), "data") && !Includes(ToLower(title), "develop") && Includes(ToLower(title), "manage")
            ==> r == ManageSkills
  {
    var lower := ToLower(title);
    if Includes(lower, "data") then DataSkills
    else if Includes(lower, "develop") then DevelopSkills
    else if Includes(lower, "manage") then ManageSkills
    else GeneralSkills
  }

  /** The skills of a card: up to four taken from `skills_to_learn`, or from
      `certifications` when that is falsy, and the title's defaults when none
      come out. */
  function Skills(roadmap: Roadmap, title: string): (r: seq<string>)
    ensures 1 <= |r| <= 4
    ensures var taken := ToArray(OrField(roadmap.skillsToLearn, roadmap.certifications));
      && (taken != [] ==> r <= taken)
      && (taken == [] ==> r == DefaultSkills(title))
  {
    var taken := ToArray(OrField(roadmap.skillsToLearn, roadmap.certifications));
    var first := if |taken| <= 4 then taken else taken[..4];
    if |first| > 0 then first else DefaultSkills(title)
  }

  const DefaultFit: string := "This career path aligns well with your background and offers good growth potential."

  /** The card's title: the career path when it is a non-empty text,
      `Career Path {i+1}` otherwise. */
  function Title(careerPath: string, index: nat): (r: string)
    ensures careerPath != "" ==> r == careerPath
    ensures careerPath == "" ==> r == "Career Path " + NatToString(index + 1)
  {
    if careerPath != "" then careerPath else "Career Path " + NatToString(index + 1)
  }

  /** The card of recommendation `index`, once its career path is known to
      be a text. */
  function Card(careerPath: string, rec: Recommendation, index: nat): (c: CareerPath)
    ensures c.title == Title(careerPath, index)
    ensures c.fitExplanation != ""
    ensures c.immediateSteps != [] && c.longTermSteps != []
    ensures 20 <= c.x <= 79 && 25 <= c.y <= 74 && 70 <= c.matchPercentage <= 94
    ensures 1 <= |c.skills| <= 4
  {
    var immediate := Refill(ToArray(rec.roadmap.immediateSteps), DefaultImmediateSteps);
    var longTerm := Refill(ToArray(rec.roadmap.longTerm), DefaultLongTermSteps);
    SectionsNeverEmpty(rec.roadmap.immediateSteps, DefaultImmediateSteps);
    SectionsNeverEmpty(rec.roadmap.longTerm, DefaultLongTermSteps);
    var pos := Position(index);
    var look := Look(index);
    var fit := if rec.whyItFits.Some? && rec.whyItFits.value != "" then rec.whyItFits.value else DefaultFit;
    CareerPath(Title(careerPath, index), fit, immediate, longTerm, MatchPercentage(index),
               "Competitive salary based on experience and location", "High",
               look.0, look.1, pos.0, pos.1, Skills(rec.roadmap, careerPath))
  }

  /** One recommendation as written: the default skills are chosen by
      `rec.career_path.toLowerCase()`, which throws a TypeError when the
      career path is missing, so the map fails before the title fallback is
      reached. */
  function CardAsWritten(rec: Recommendation, index: nat): (r: Result<CareerPath, string>)
    ensures rec.careerPath.None? <==> r.Failure?
  {
    if rec.careerPath.None? then Failure("TypeError")
    else Success(Card(rec.careerPath.value, rec, index))
  }

  /** One recommendation as intended: a missing career path reads as the
      empty text, so it gets the fallback title and the general skills. */
  function CardFor(rec: Recommendation, index: nat): (c: CareerPath)
    ensures rec.careerPath.Some? ==> CardAsWritten(rec, index) == Success(c)
    ensures rec.careerPath.None? ==> c.title == Title("", index)
  {
    Card(if rec.careerPath.Some? then rec.careerPath.value else "", rec, index)
  }

  /** `recs.map(f)` where `f` may throw: the first failure ends the mapping. */
  function MapOrFail(recs: seq<Recommendation>, f: (Recommendation, nat) -> Result<CareerPath, string>): (r: Result<seq<CareerPath>, string>)
    ensures r.Success? ==> |r.value| == |recs|
    decreases |recs|
  {
    if recs == [] then Success([])
    else
      var before := MapOrFail(recs[..|recs| - 1], f);
      if before.Failure? then before
      else
        var last := f(recs[|recs| - 1], |recs| - 1);
        if last.Failure? then Failure(last.error) else Success(before.value + [last.value])
  }

  /** `recs.map(f)` where `f` cannot throw. */
  function MapIndexed(recs: seq<Recommendation>, f: (Recommendation, nat) -> CareerPath): (r: seq<CareerPath>)
    ensures |r| == |recs|
    ensures forall i :: 0 <= i < |recs| ==> r[i] == f(recs[i], i)
  {
    seq(|recs|, i requires 0 <= i < |recs| => f(recs[i], i))
  }

  /** A mapping that never throws gives what the non-throwing one does. */
  lemma {:induction false} MapOrFailSucceeds(recs: seq<Recommendation>, f: (Recommendation, nat) -> Result<CareerPath, string>,
                                             g: (Recommendation, nat) -> CareerPath)
    requires forall i :: 0 <= i < |recs| ==> f(recs[i], i) == Success(g(recs[i], i))
    ensures MapOrFail(recs, f) == Success(MapIndexed(recs, g))
    decreases |recs|
  {
    if recs != [] {
      var n := |recs| - 1;
      var init := recs[..n];
      assert forall i :: 0 <= i < |init| ==> init[i] == recs[i];
      MapOrFailSucceeds(init, f, g);
      assert MapIndexed(recs, g) == MapIndexed(init, g) + [g(recs[n], n)];
    }
  }

  /** One throwing element makes the whole mapping throw. */
  lemma {:induction false} MapOrFailFails(recs: seq<Recommendation>, f: (Recommendation, nat) -> Result<CareerPath, string>, i: nat)
    requires i < |recs| && f(recs[i], i).Failure?
    ensures MapOrFail(recs, f).Failure?
    decreases |recs|
  {
    var n := |recs| - 1;
    if i < n {
      assert recs[..n][i] == recs[i];
      MapOrFailFails(recs[..n], f, i);
    }
  }

  /** `mapApiToCareerPaths` as written. */
  function MapAsWritten(recs: seq<Recommendation>): (r: Result<seq<CareerPath>, string>)
    ensures r.Success? ==> |r.value| == |recs|
  {
    MapOrFail(recs, CardAsWritten)
  }

  /** `mapApiToCareerPaths` as intended: one card per recommendation, in order. */
  function MapCareerPaths(recs: seq<Recommendation>): (r: seq<CareerPath>)
    ensures |r| == |recs|
    ensures forall i :: 0 <= i < |recs| ==> r[i] == CardFor(recs[i], i)
  {
    MapIndexed(recs, CardFor)
  }

  /** Where every career path is there, the code as written gives the
      intended cards; one missing career path makes it fail. */
  lemma AsWrittenAgrees(recs: seq<Recommendation>)
    ensures (forall i :: 0 <= i < |recs| ==> recs[i].careerPath.Some?) ==> MapAsWritten(recs) == Success(MapCareerPaths(recs))
    ensures (exists i :: 0 <= i < |recs| && recs[i].careerPath.None?) ==> MapAsWritten(recs).Failure?
  {
    if forall i :: 0 <= i < |recs| ==> recs[i].careerPath.Some? {
      forall i | 0 <= i < |recs| ensures CardAsWritten(recs[i], i) == Success(CardFor(recs[i], i)) {
      }
      MapOrFailSucceeds(recs, CardAsWritten, CardFor);
    } else {
      var i :| 0 <= i < |recs| && recs[i].careerPath.None?;
      MapOrFailFails(recs, CardAsWritten, i);
    }
  }

  /** A recommendation without a career path: as written the page fails,
      as intended it gets `Career Path 1`. */
  lemma MissingCareerPath(why: Option<string>, roadmap: Roadmap)
    ensures MapAsWritten([Recommendation(None, why, roadmap)]).Failure?
    ensures MapCareerPaths([Recommendation(None, why, roadmap)])[0].title == "Career Path 1"
  {
    var rec := Recommendation(None, why, roadmap);
    MapOrFailFails([rec], CardAsWritten, 0);
    FallbackTitle(CardFor(rec, 0), MapCareerPaths([rec])[0]);
  }

  lemma FallbackTitle(c: CareerPath, d: CareerPath)
    requires c.title == Title("", 0) && d == c
    ensures d.title == "Career Path 1"
  {
    assert NatToString(1) == "1";
  }

  const NoRecommendations: string :=
    "No valid career recommendations found. Please try uploading a different resume or ensure it contains clear skill information."

  const DefaultCrossIndustry: string :=
    "Your skills provide opportunities across multiple sectors based on your experience."

  /** The analysis result: the value the service sent, with its
      recommendations (missing when absent) and cross-industry text. */
  datatype Analysis = Analysis(recommendations: Option<seq<Recommendation>>, crossIndustry: Option<string>)

  /** The part of `handleAnalyze` after the reply is read: an absent or
      empty recommendation list is an error and no cards are set; a
      recommendation without a career path makes the mapping throw, and its
      message is the error; otherwise the intended cards, one per
      recommendation, and the cross-industry text, or its default when the
      service sent none or an empty one. */
  function Analyze(value: Option<Analysis>): (r: Result<(seq<CareerPath>, string), string>)
    ensures value.None? || value.value.recommendations.None? || value.value.recommendations.value == [] ==>
              r == Failure(NoRecommendations)
    ensures value.Some? && value.value.recommendations.Some? && value.value.recommendations.value != [] ==>
              var recs := value.value.recommendations.value;
              && (r.Failure? <==> exists i :: 0 <= i < |recs| && recs[i].careerPath.None?)
              && (r.Failure? <==> MapAsWritten(recs).Failure?)
              && (r.Failure? ==> r.error == MapAsWritten(recs).error)
    ensures r.Success? ==>
              var cross := value.value.crossIndustry;
              && r.value.0 == MapCareerPaths(value.value.recommendations.value)
              && (cross.Some? && cross.value != "" ==> r.value.1 == cross.value)
              && (cross.None? || cross.value == "" ==> r.value.1 == DefaultCrossIndustry)
  {
    if value.None? || value.value.recommendations.None? || value.value.recommendations.value == [] then
      Failure(NoRecommendations)
    else
      var recs := value.value.recommendations.value;
      var cross := value.value.crossIndustry;
      AsWrittenAgrees(recs);
      match MapAsWritten(recs)
      case Failure(e) => Failure(e)
      case Success(cards) =>
        Success((cards, if cross.Some? && cross.value != "" then cross.value else DefaultCrossIndustry))
  }
}
