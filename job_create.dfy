/** The employer's job-posting form: its fields, the skills list with its
    add and remove buttons, and the posting, which validates the role and
    the description before building the document it stores. */
module JobCreate {
  import opened JsText

  /** The form's fields. */
  datatype FieldName = Role | Description | Location | JobType | Salary | ExperienceLevel | AdditionalRequirements

  /** The form's values. */
  datatype Form = Form(role: string, description: string, location: string, jobType: string, salary: string,
                       experienceLevel: string, additionalRequirements: string)

  const EmptyForm: Form := Form("", "", "", "Full-time", "", "Entry Level (0-2 years)", "")

  /** The value of one field. */
  function Get(form: Form, field: FieldName): string
  {
    match field
    case Role => form.role
    case Description => form.description
    case Location => form.location
    case JobType => form.jobType
    case Salary => form.salary
    case ExperienceLevel => form.experienceLevel
    case AdditionalRequirements => form.additionalRequirements
  }

  /** `{ ...prev, [field]: value }`: the named field takes the value, every
      other field keeps its own. */
  function With(form: Form, field: FieldName, value: string): (r: Form)
    ensures forall other :: Get(r, other) == if other == field then value else Get(form, other)
  {
    match field
    case Role => form.(role := value)
    case Description => form.(description := value)
    case Location => form.(location := value)
    case JobType => form.(jobType := value)
    case Salary => form.(salary := value)
    case ExperienceLevel => form.(experienceLevel := value)
    case AdditionalRequirements => form.(additionalRequirements := value)
  }

  /** The document a posting stores. */
  datatype JobData = JobData(
    role: string,
    description: string,
    location: string,
    jobType: string,
    salary: string,
    experienceLevel: string,
    additionalRequirements: string,
    skills: seq<string>,
    employerId: string,
    employerName: string,
    companyName: string,
    status: string,
    postedDate: string,
    applicationsCount: int)

  /** What pressing "post" does: a validation message and no write, or the
      document written (`stored`) or refused by the store. */
  datatype PostOutcome = Invalid(message: string) | Posted(job: JobData, stored: bool)

  /** A text with no white space at either end. */
  predicate Trimmed(s: string)
  {
    s == [] || (!IsJsSpace(s[0]) && !IsJsSpace(s[|s| - 1]))
  }

  /** `trim` gives a trimmed text. */
  lemma TrimIsTrimmed(s: string)
    ensures Trimmed(Trim(s))
    ensures Trim(Trim(s)) == Trim(s)
  {
    var e := TrimEnd(s);
    var t := TrimStart(e);
    if t != [] {
      assert t[|t| - 1] == e[|e| - 1];
    }
    TrimUnchanged(t);
  }

  /** A skills list as the editor keeps it: trimmed, non-empty, distinct. */
  predicate GoodSkills(skills: seq<string>)
  {
    Distinct(skills) && forall k :: 0 <= k < |skills| ==> skills[k] != "" && Trimmed(skills[k])
  }

  /** No text twice. */
  predicate Distinct(s: seq<string>)
  {
    forall p, q :: 0 <= p < q < |s| ==> s[p] != s[q]
  }

  /** `skills.filter((skill) => skill !== x)`. */
  function Without(skills: seq<string>, x: string): (r: seq<string>)
    ensures x !in r
    ensures forall s :: s in r <==> s in skills && s != x
    ensures |r| <= |skills|
  {
    if skills == [] then []
    else if skills[0] == x then Without(skills[1..], x)
    else [skills[0]] + Without(skills[1..], x)
  }

  /** Removing keeps the others in order: in a list without duplicates, the
      element removed leaves a gap and nothing else moves. */
  lemma {:induction false} WithoutSplices(skills: seq<string>, i: int)
    requires Distinct(skills) && 0 <= i < |skills|
    ensures Without(skills, skills[i]) == skills[..i] + skills[i + 1..]
  {
    if i == 0 {
      WithoutAbsent(skills[1..], skills[0]);
    } else {
      assert Distinct(skills[1..]);
      WithoutSplices(skills[1..], i - 1);
      assert skills[1..][i - 1] == skills[i];
      assert skills[..i] == [skills[0]] + skills[1..][..i - 1];
      assert skills[i + 1..] == skills[1..][i..];
    }
  }

  /** Removing what is not there changes nothing. */
  lemma {:induction false} WithoutAbsent(skills: seq<string>, x: string)
    requires x !in skills
    ensures Without(skills, x) == skills
  {
    if skills != [] {
      WithoutAbsent(skills[1..], x);
    }
  }

  class Editor {
    var formData: Form
    var skills: seq<string>
    var newSkill: string
    var employerName: string
    var company: string
    var userId: string

    /** The form keeps its fields, and the skills are trimmed, non-empty and
        distinct. */
    ghost predicate Valid()
      reads this
    {
      GoodSkills(skills)
    }

    /** The empty form with its two preset choices. */
    constructor()
      ensures Valid()
      ensures formData == EmptyForm
      ensures skills == [] && newSkill == ""
      ensures employerName == "" && company == "" && userId == ""
    {
      formData := EmptyForm;
      skills := [];
      newSkill := "";
      employerName := "";
      company := "";
      userId := "";
    }

    /** The employer data read on mount: a missing name or company gets its
        default. */
    method LoadEmployer(name: string, companyPref: string, id: string)
      modifies this
      ensures employerName == (if name != "" then name else "Employer")
      ensures company == (if companyPref != "" then companyPref else "Your Company")
      ensures userId == id
      ensures formData == old(formData) && skills == old(skills) && newSkill == old(newSkill)
    {
      employerName := if name != "" then name else "Employer";
      company := if companyPref != "" then companyPref else "Your Company";
      userId := id;
    }

    /** Typing in the skill box. */
    method SetNewSkill(text: string)
      modifies this
      ensures newSkill == text
      ensures formData == old(formData) && skills == old(skills)
      ensures employerName == old(employerName) && company == old(company) && userId == old(userId)
    {
      newSkill := text;
    }

    /** `addSkill`. */
    method AddSkill()
      requires Valid()
      modifies this
      ensures Valid()
      ensures (skills, newSkill) == Added(old(skills), old(newSkill))
      ensures formData == old(formData)
      ensures employerName == old(employerName) && company == old(company) && userId == old(userId)
    {
      var r := Added(skills, newSkill);
      skills, newSkill := r.0, r.1;
    }

    /** `removeSkill`: every entry equal to the given one goes, the rest
        stay in order. */
    method RemoveSkill(skill: string)
      requires Valid()
      modifies this
      ensures Valid()
      ensures skills == Without(old(skills), skill)
      ensures skill !in skills && forall s :: s in old(skills) && s != skill ==> s in skills
      ensures formData == old(formData) && newSkill == old(newSkill)
      ensures employerName == old(employerName) && company == old(company) && userId == old(userId)
    {
      WithoutKeeps(skills, skill);
      skills := Without(skills, skill);
    }

    /** `handleInputChange`: the named field takes the value, every other
        field keeps its own. */
    method InputChange(field: FieldName, value: string)
      requires Valid()
      modifies this
      ensures Valid()
      ensures formData == With(old(formData), field, value)
      ensures skills == old(skills) && newSkill == old(newSkill)
      ensures employerName == old(employerName) && company == old(company) && userId == old(userId)
    {
      formData := With(formData, field, value);
    }

    /** `handlePostJob`: a role that trims to nothing is refused first, then
        such a description; otherwise the document built from the form,
        the skills and the employer data is written. `accepted` is the
        store's answer. */
    function Post(postedDate: string, accepted: bool): (o: PostOutcome)
      reads this
      ensures Trim(formData.role) == "" <==> o == Invalid("Please enter a job role")
      ensures Trim(formData.role) != "" && Trim(formData.description) == "" <==> o == Invalid("Please enter a job description")
      ensures o.Posted? ==> o.stored == accepted
                            && o.job == Document(formData, skills, userId, employerName, company, postedDate)
    {
      if Trim(formData.role) == "" then Invalid("Please enter a job role")
      else if Trim(formData.description) == "" then Invalid("Please enter a job description")
      else Posted(Document(formData, skills, userId, employerName, company, postedDate), accepted)
    }
  }

  /** The document a valid form is posted as: the texts trimmed,
      "Not specified" for a blank location, "Negotiable" for a blank salary,
      the two choices and the skills as they are, the employer's id, name
      and company, status "active" and no applications. */
  function Document(form: Form, skills: seq<string>, employerId: string, employerName: string,
                    companyName: string, postedDate: string): (job: JobData)
    requires Trim(form.role) != "" && Trim(form.description) != ""
    ensures PostedValid(job) && job.skills == skills
    ensures job.role == Trim(form.role) && job.description == Trim(form.description)
    ensures Trim(form.location) != "" ==> job.location == Trim(form.location)
    ensures Trim(form.location) == "" ==> job.location == "Not specified"
    ensures Trim(form.salary) != "" ==> job.salary == Trim(form.salary)
    ensures Trim(form.salary) == "" ==> job.salary == "Negotiable"
    ensures job.jobType == form.jobType && job.experienceLevel == form.experienceLevel
    ensures job.additionalRequirements == Trim(form.additionalRequirements)
    ensures job.employerId == employerId && job.employerName == employerName
    ensures job.companyName == companyName && job.postedDate == postedDate
  {
    var location := Trim(form.location);
    var salary := Trim(form.salary);
    TrimIsTrimmed(form.role);
    TrimIsTrimmed(form.description);
    assert "Not specified" != "" && "Negotiable" != "";
    JobData(Trim(form.role), Trim(form.description), if location != "" then location else "Not specified",
            form.jobType, if salary != "" then salary else "Negotiable",
            form.experienceLevel, Trim(form.additionalRequirements), skills,
            employerId, employerName, companyName, "active", postedDate, 0)
  }

  /** What every stored posting satisfies: a non-empty trimmed role and
      description, a location and a salary that are never blank, status
      "active" and no applications yet. */
  predicate PostedValid(job: JobData)
  {
    && job.role != "" && Trimmed(job.role)
    && job.description != "" && Trimmed(job.description)
    && job.location != "" && job.salary != ""
    && job.status == "active" && job.applicationsCount == 0
  }

  /** The skills list and the skill box after `addSkill`; a valid list
      stays valid. */
  function Added(skills: seq<string>, entry: string): (r: (seq<string>, string))
    requires GoodSkills(skills)
    ensures GoodSkills(r.0)
  {
    var t := Trim(entry);
    if t != "" && t !in skills then
      TrimIsTrimmed(entry);
      AppendKeeps(skills, t);
      (skills + [t], "")
    else (skills, entry)
  }

  /** The trimmed entry is appended and the box cleared, unless it is empty
      or already listed, when nothing changes. */
  lemma AddedAppends(skills: seq<string>, entry: string)
    requires GoodSkills(skills)
    ensures Trim(entry) != "" && Trim(entry) !in skills ==> Added(skills, entry) == (skills + [Trim(entry)], "")
    ensures Trim(entry) == "" || Trim(entry) in skills ==> Added(skills, entry) == (skills, entry)
  {
  }

  /** Adding the same entry again leaves the list as the first add did. */
  lemma AddIdempotent(skills: seq<string>, entry: string)
    requires GoodSkills(skills)
    ensures Added(Added(skills, entry).0, entry).0 == Added(skills, entry).0
  {
    var t := Trim(entry);
    if t != "" && t !in skills {
      assert (skills + [t])[|skills|] == t;
    }
  }

  /** Appending a new trimmed, non-empty text keeps a skills list valid. */
  lemma AppendKeeps(skills: seq<string>, t: string)
    requires GoodSkills(skills)
    requires t != "" && Trimmed(t) && t !in skills
    ensures GoodSkills(skills + [t])
  {
    var r := skills + [t];
    assert forall k :: 0 <= k < |skills| ==> r[k] == skills[k];
  }

  /** `Without` keeps a valid skills list valid. */
  lemma {:induction false} WithoutKeeps(skills: seq<string>, x: string)
    requires GoodSkills(skills)
    ensures GoodSkills(Without(skills, x))
  {
    if skills != [] {
      assert GoodSkills(skills[1..]);
      WithoutKeeps(skills[1..], x);
      var rest := Without(skills[1..], x);
      if skills[0] != x {
        var r := [skills[0]] + rest;
        assert skills[0] !in skills[1..];
        assert forall k :: 1 <= k < |r| ==> r[k] == rest[k - 1] && r[k] in skills[1..];
      }
    }
  }
}
