/** The candidate's job board: the active postings, the search and the four
    select filters, the four sort orders (the last applied in place to the
    filtered list), and the relative date shown on each posting. Dates are
    millisecond timestamps. */
module Jobs {
  import opened JsText
  import opened Sequences

  datatype Job = Job(
    id: string,
    role: string,
    description: string,
    location: string,
    jobType: string,
    salary: string,
    experienceLevel: string,
    skills: seq<string>,
    companyName: string,
    status: string,
    postedTime: int,
    applicationsCount: int)

  /** The select filters; each is "all" or one of the page's option values. */
  datatype Filters = Filters(location: string, jobType: string, salaryRange: string, experienceLevel: string, sortBy: string)

  const NoFilters: Filters := Filters("all", "all", "all", "all", "recent")

  /** The fetched documents with status "active", in order. */
  function ActiveJobs(docs: seq<Job>): (r: seq<Job>)
    ensures IsSubsequence(r, docs)
    ensures forall j :: multiset(r)[j] == if j.status == "active" then multiset(docs)[j] else 0
  {
    var active := (j: Job) => j.status == "active";
    FilterKeeps(docs, active);
    Filter(docs, active)
  }

  /** Case-insensitive `includes`. */
  predicate Mentions(text: string, query: string)
  {
    Includes(ToLower(text), ToLower(query))
  }

  /** The search box: the query in the role, the company, any skill or the
      description. */
  predicate MatchesSearch(job: Job, query: string): (b: bool)
    ensures query == "" ==> b
  {
    assert query == "" ==> ToLower(query) == "" && OccursAt(ToLower(job.role), ToLower(query), 0);
    || Mentions(job.role, query)
    || Mentions(job.companyName, query)
    || (exists k :: 0 <= k < |job.skills| && Mentions(job.skills[k], query))
    || Mentions(job.description, query)
  }

  /** The location filter, with its extra clause for "remote". That clause
      never decides: a location containing "remote" already mentions the
      choice "remote". */
  predicate MatchesLocation(job: Job, location: string): (b: bool)
    ensures b <==> location == "all" || Mentions(job.location, location)
  {
    assert location == "remote" ==> ToLower(location) == "remote";
    || location == "all"
    || Mentions(job.location, location)
    || (location == "remote" && Includes(ToLower(job.location), "remote"))
  }

  /** A select filter that is "all" or mentioned in the job's field. */
  predicate MatchesSelect(field: string, choice: string)
  {
    choice == "all" || Mentions(field, choice)
  }

  /** The figures a salary bucket looks for; none for an unknown bucket. */
  function BucketFigures(bucket: string): seq<string>
  {
    if bucket == "50-80" then ["50", "60", "70", "80"]
    else if bucket == "80-120" then ["80", "90", "100", "110", "120"]
    else if bucket == "120-160" then ["120", "130", "140", "150", "160"]
    else if bucket == "160+" then ["160", "170", "180", "190", "200"]
    else []
  }

  predicate KnownBucket(bucket: string)
  {
    bucket == "50-80" || bucket == "80-120" || bucket == "120-160" || bucket == "160+"
  }

  /** The salary filter: "all" and unknown buckets pass everything; a known
      bucket passes a salary whose lower-case text contains one of its
      figures. */
  predicate MatchesSalary(job: Job, bucket: string): (b: bool)
    ensures !KnownBucket(bucket) ==> b
  {
    bucket == "all" || !KnownBucket(bucket)
    || exists k :: 0 <= k < |BucketFigures(bucket)| && Includes(ToLower(job.salary), BucketFigures(bucket)[k])
  }

  predicate Matches(job: Job, query: string, f: Filters)
  {
    && MatchesSearch(job, query)
    && MatchesLocation(job, f.location)
    && MatchesSelect(job.jobType, f.jobType)
    && MatchesSelect(job.experienceLevel, f.experienceLevel)
    && MatchesSalary(job, f.salaryRange)
  }

  /** `jobs.filter(...)`: exactly the matching jobs, in order. */
  function Filtered(jobs: seq<Job>, query: string, f: Filters): (r: seq<Job>)
    ensures IsSubsequence(r, jobs)
    ensures forall j :: multiset(r)[j] == if Matches(j, query, f) then multiset(jobs)[j] else 0
  {
    var matches := (j: Job) => Matches(j, query, f);
    FilterKeeps(jobs, matches);
    Filter(jobs, matches)
  }

  /** The empty text occurs in every text. */
  lemma EmptyIncluded(s: string)
    ensures Includes(s, "")
  {
    assert OccursAt(s, "", 0);
  }

  /** An empty query and "all" everywhere keep every job. */
  lemma NoFilterKeepsAll(jobs: seq<Job>, sortBy: string)
    ensures Filtered(jobs, "", Filters("all", "all", "all", "all", sortBy)) == jobs
  {
    var f := Filters("all", "all", "all", "all", sortBy);
    assert ToLower("") == "";
    forall k | 0 <= k < |jobs| ensures Matches(jobs[k], "", f) {
      EmptyIncluded(ToLower(jobs[k].role));
    }
    FilterAll(jobs, (j: Job) => Matches(j, "", f));
  }

  /** A known salary bucket passes exactly the salaries mentioning one of its
      figures; the neighbouring buckets share their edge figure. */
  lemma BucketEdges(job: Job)
    ensures Includes(ToLower(job.salary), "80") ==> MatchesSalary(job, "50-80") && MatchesSalary(job, "80-120")
    ensures Includes(ToLower(job.salary), "120") ==> MatchesSalary(job, "80-120") && MatchesSalary(job, "120-160")
    ensures Includes(ToLower(job.salary), "160") ==> MatchesSalary(job, "120-160") && MatchesSalary(job, "160+")
  {
    assert BucketFigures("50-80")[3] == "80" && BucketFigures("80-120")[0] == "80";
    assert BucketFigures("80-120")[4] == "120" && BucketFigures("120-160")[0] == "120";
    assert BucketFigures("120-160")[4] == "160" && BucketFigures("160+")[0] == "160";
  }

  /** The sort key of each sort order, larger first: the posting time for
      "recent" and "match", the applications for "applications", and the
      collation rank of the salary text for "salary". */
  function SortKey(sortBy: string, collate: string -> int): (key: Job -> int)
    ensures sortBy == "match" ==> forall j :: key(j) == j.postedTime
    ensures sortBy == "recent" ==> forall j :: key(j) == j.postedTime
    ensures sortBy == "applications" ==> forall j :: key(j) == j.applicationsCount
    ensures sortBy == "salary" ==> forall j :: key(j) == collate(j.salary)
  {
    if sortBy == "applications" then (j: Job) => j.applicationsCount
    else if sortBy == "salary" then (j: Job) => collate(j.salary)
    else (j: Job) => j.postedTime
  }

  predicate KnownSort(sortBy: string)
  {
    sortBy == "recent" || sortBy == "salary" || sortBy == "applications" || sortBy == "match"
  }

  predicate DescendingBy(s: seq<Job>, key: Job -> int)
  {
    forall p, q :: 0 <= p < q < |s| ==> key(s[p]) >= key(s[q])
  }

  /** `filteredResults.sort((a, b) => key(b) - key(a))`, in place. */
  method SortDescending(a: array<Job>, key: Job -> int)
    modifies a
    ensures DescendingBy(a[..], key)
    ensures multiset(a[..]) == multiset(old(a[..]))
  {
    var i := 0;
    while i < a.Length
      invariant 0 <= i <= a.Length
      invariant DescendingBy(a[..i], key)
      invariant multiset(a[..]) == multiset(old(a[..]))
    {
      Insert(a, i, key);
      i := i + 1;
    }
    assert a[..a.Length] == a[..];
  }

  /** One insertion step: the element at `i` moves left past the smaller
      ones before it, so the first `i + 1` elements end up in order. */
  method Insert(a: array<Job>, i: int, key: Job -> int)
    requires 0 <= i < a.Length && DescendingBy(a[..i], key)
    modifies a
    ensures DescendingBy(a[..i + 1], key)
    ensures multiset(a[..]) == multiset(old(a[..]))
  {
    var j := i;
    InsertStart(a[..], i, key);
    while j > 0 && key(a[j - 1]) < key(a[j])
      invariant 0 <= j <= i
      invariant Inserting(a[..], j, i, key)
      invariant multiset(a[..]) == multiset(old(a[..]))
    {
      ghost var s := a[..];
      InsertSwap(s, j, i, key);
      a[j - 1], a[j] := a[j], a[j - 1];
      assert a[..] == s[j - 1 := s[j]][j := s[j - 1]];
      j := j - 1;
    }
    InsertDone(a[..], j, i, key);
  }

  /** Midway through an insertion step: the moving element sits at `j`,
      the others up to `i` are in order, and those after `j` are smaller
      than it. */
  predicate Inserting(s: seq<Job>, j: int, i: int, key: Job -> int)
  {
    && 0 <= j <= i < |s|
    && (forall p, q :: 0 <= p < q <= i && p != j && q != j ==> key(s[p]) >= key(s[q]))
    && (forall q :: j < q <= i ==> key(s[j]) > key(s[q]))
  }

  lemma InsertStart(s: seq<Job>, i: int, key: Job -> int)
    requires 0 <= i < |s| && DescendingBy(s[..i], key)
    ensures Inserting(s, i, i, key)
  {
    forall p, q | 0 <= p < q <= i && p != i && q != i
      ensures key(s[p]) >= key(s[q])
    {
      assert s[p] == s[..i][p] && s[q] == s[..i][q];
    }
  }

  lemma InsertSwap(s: seq<Job>, j: int, i: int, key: Job -> int)
    requires Inserting(s, j, i, key) && j > 0 && key(s[j - 1]) < key(s[j])
    ensures Inserting(s[j - 1 := s[j]][j := s[j - 1]], j - 1, i, key)
  {
  }

  lemma InsertDone(s: seq<Job>, j: int, i: int, key: Job -> int)
    requires Inserting(s, j, i, key) && (j == 0 || key(s[j - 1]) >= key(s[j]))
    ensures DescendingBy(s[..i + 1], key)
  {
    var t := s[..i + 1];
    forall p, q | 0 <= p < q < |t|
      ensures key(t[p]) >= key(t[q])
    {
      if q == j && p < j - 1 {
        assert key(s[p]) >= key(s[j - 1]);
      }
    }
  }

  /** The filter effect: the matching jobs, sorted by the chosen order when
      it is one of the four, in the fetched order otherwise. */
  method Refresh(jobs: seq<Job>, query: string, f: Filters, collate: string -> int) returns (shown: seq<Job>)
    ensures multiset(shown) == multiset(Filtered(jobs, query, f))
    ensures KnownSort(f.sortBy) ==> DescendingBy(shown, SortKey(f.sortBy, collate))
    ensures !KnownSort(f.sortBy) ==> shown == Filtered(jobs, query, f)
  {
    var results := Filtered(jobs, query, f);
    if !KnownSort(f.sortBy) {
      return results;
    }
    var a := new Job[|results|](k requires 0 <= k < |results| => results[k]);
    assert a[..] == results;
    SortDescending(a, SortKey(f.sortBy, collate));
    shown := a[..];
  }

  /** `Math.ceil(a / b)` for a non-negative `a`. */
  function CeilDiv(a: nat, b: nat): (r: nat)
    requires b > 0
    ensures b * r >= a && (r == 0 || b * (r - 1) < a)
  {
    (a + b - 1) / b
  }

  const DayMs: nat := 1000 * 60 * 60 * 24

  /** The whole days, rounded up, between the posting and now, either way round. */
  function DaysBetween(now: int, posted: int): (days: nat)
    ensures DayMs * days >= (if now >= posted then now - posted else posted - now)
    ensures days == 0 || DayMs * (days - 1) < (if now >= posted then now - posted else posted - now)
  {
    CeilDiv(if now >= posted then now - posted else posted - now, DayMs)
  }

  /** How long ago, in the unit `formatDate` picks. */
  datatype Age = Day | Days(n: nat) | Weeks(n: nat) | Months(n: nat)

  /** The bucket of a day count: one day, under a week, under thirty days
      in weeks rounded up, otherwise months of thirty days rounded up. */
  function AgeOf(days: nat): (a: Age)
    ensures a == Day <==> days == 1
    ensures a.Days? ==> a.n == days && days != 1 && days < 7
    ensures a.Weeks? ==> 7 <= days < 30 && 1 <= a.n <= 5 && 7 * (a.n - 1) < days <= 7 * a.n
    ensures a.Months? ==> 30 <= days && 1 <= a.n && 30 * (a.n - 1) < days <= 30 * a.n
  {
    if days == 1 then Day
    else if days < 7 then Days(days)
    else if days < 30 then Weeks(CeilDiv(days, 7))
    else Months(CeilDiv(days, 30))
  }

  /** The text shown for an age: "1 day ago" for a single day, and a count
      of digits first for every other age. */
  function Render(a: Age): (r: string)
    ensures r == "1 day ago" <==> a == Day
    ensures a != Day ==> |r| >= 10 && '0' <= r[0] <= '9'
  {
    match a
    case Day => "1 day ago"
    case Days(n) => NatToString(n) + " days ago"
    case Weeks(n) => NatToString(n) + " weeks ago"
    case Months(n) => NatToString(n) + " months ago"
  }

  /** `formatDate`: "1 day ago" exactly for a one-day difference. */
  function FormatDate(now: int, posted: int): (r: string)
    ensures r == "1 day ago" <==> DaysBetween(now, posted) == 1
  {
    Render(AgeOf(DaysBetween(now, posted)))
  }

  /** A later date never reads as longer ago: the buckets follow the day
      count. */
  lemma AgeMonotone(d1: nat, d2: nat)
    requires d1 <= d2
    ensures Rank(AgeOf(d1)) <= Rank(AgeOf(d2))
  {
  }

  /** The order of the buckets: days before weeks before months, by count. */
  function Rank(a: Age): (r: nat)
  {
    match a
    case Day => 1
    case Days(n) => n
    case Weeks(n) => 100 + n
    case Months(n) => 1000 + n
  }
}
