/** The candidate dashboard: the badge colour and label of an application's
    status, and the list of applications shown, which leaves out those
    whose job can no longer be fetched. The document store is a pair of
    lookups that may fail. */
module Dashboard {
  import opened Wrappers
  import opened Sequences

  const AppliedColor: string := "bg-gray-500/20 text-gray-400 border-gray-500/30"

  /** `getStatusColor`. */
  function StatusColor(status: string): (r: string)
    ensures !KnownStatus(status) || status == "applied" ==> r == AppliedColor
  {
    if status == "interview_scheduled" then "bg-blue-600 text-white border-blue-700"
    else if status == "under_review" then "bg-yellow-500/20 text-yellow-400 border-yellow-500/30"
    else if status == "ai_interview_pending" then "bg-blue-500/20 text-blue-400 border-blue-500/30"
    else if status == "hired" then "bg-green-500/20 text-green-400 border-green-500/30"
    else if status == "rejected" then "bg-red-500/20 text-red-400 border-red-500/30"
    else AppliedColor
  }

  /** The six statuses the dashboard names. */
  predicate KnownStatus(status: string)
  {
    status == "interview_scheduled" || status == "under_review" || status == "ai_interview_pending"
    || status == "hired" || status == "applied" || status == "rejected"
  }

  /** `getStatusText`. */
  function StatusText(status: string): (r: string)
    ensures !KnownStatus(status) ==> r == "APPLIED"
  {
    if status == "interview_scheduled" then "INTERVIEW READY"
    else if status == "under_review" then "UNDER REVIEW"
    else if status == "ai_interview_pending" then "INTERVIEW PENDING"
    else if status == "hired" then "HIRED"
    else if status == "rejected" then "REJECTED"
    else "APPLIED"
  }

  /** The status the interview page writes when an interview ends is not one
      the dashboard names: it shows as an application just made. */
  lemma ResultsPendingShowsApplied()
    ensures StatusText("results_pending") == StatusText("applied") == "APPLIED"
    ensures StatusColor("results_pending") == StatusColor("applied")
  {
  }

  /** An application document, as stored. */
  datatype Application = Application(id: string, userId: string, jobId: string, status: string)

  /** What the dashboard needs of a job. */
  datatype JobInfo = JobInfo(role: string, companyName: string)

  /** An application with the title and company of its job. */
  datatype Shown = Shown(application: Application, jobTitle: string, companyName: string)

  /** The store: the applications of a user, and a job by id; either may
      throw, which is `None`. */
  datatype Store = Store(listApplications: string -> Option<seq<Application>>, getJob: string -> Option<JobInfo>)

  function ApplicationsOf(shown: seq<Shown>): (r: seq<Application>)
    ensures |r| == |shown| && forall k :: 0 <= k < |r| ==> r[k] == shown[k].application
  {
    seq(|shown|, k requires 0 <= k < |shown| => shown[k].application)
  }

  /** The job of the application can be fetched. */
  function HasJob(getJob: string -> Option<JobInfo>): Application -> bool
  {
    (a: Application) => getJob(a.jobId).Some?
  }

  /** The applications whose job lookup succeeds, with their job's details,
      in the order listed; a failed lookup marks the application and the
      filter drops it. */
  function WithJobs(apps: seq<Application>, getJob: string -> Option<JobInfo>): (r: seq<Shown>)
    ensures |r| <= |apps|
    ensures forall k :: 0 <= k < |r| ==> r[k].application in apps && getJob(r[k].application.jobId).Some?
    ensures forall k :: 0 <= k < |r| ==>
      r[k].jobTitle == getJob(r[k].application.jobId).value.role
      && r[k].companyName == getJob(r[k].application.jobId).value.companyName
    ensures forall k :: 0 <= k < |apps| && getJob(apps[k].jobId).Some? ==> apps[k] in ApplicationsOf(r)
  {
    if apps == [] then []
    else
      var rest := WithJobs(apps[1..], getJob);
      assert forall k :: 1 <= k < |apps| ==> apps[k] == apps[1..][k - 1];
      var job := getJob(apps[0].jobId);
      if job.Some? then
        var r := [Shown(apps[0], job.value.role, job.value.companyName)] + rest;
        assert ApplicationsOf(r) == [apps[0]] + ApplicationsOf(rest);
        r
      else rest
  }

  /** The applications shown are exactly those whose job lookup succeeds,
      in the order listed, each as often as listed. */
  lemma {:induction false} ShownInOrder(apps: seq<Application>, getJob: string -> Option<JobInfo>)
    ensures ApplicationsOf(WithJobs(apps, getJob)) == Filter(apps, HasJob(getJob))
  {
    if apps != [] {
      ShownInOrder(apps[1..], getJob);
      var rest := WithJobs(apps[1..], getJob);
      var job := getJob(apps[0].jobId);
      if job.Some? {
        var r := [Shown(apps[0], job.value.role, job.value.companyName)] + rest;
        assert ApplicationsOf(r) == [apps[0]] + ApplicationsOf(rest);
      }
    }
  }

  /** When every job is there, every application is shown. */
  lemma {:induction false} AllJobsThere(apps: seq<Application>, getJob: string -> Option<JobInfo>)
    requires forall k :: 0 <= k < |apps| ==> getJob(apps[k].jobId).Some?
    ensures |WithJobs(apps, getJob)| == |apps|
    ensures forall k :: 0 <= k < |apps| ==> WithJobs(apps, getJob)[k].application == apps[k]
  {
    if apps != [] {
      AllJobsThere(apps[1..], getJob);
      var rest := WithJobs(apps[1..], getJob);
      var job := getJob(apps[0].jobId);
      var r := [Shown(apps[0], job.value.role, job.value.companyName)] + rest;
      assert WithJobs(apps, getJob) == r;
      forall k | 1 <= k < |apps|
        ensures r[k].application == apps[k]
      {
        assert r[k] == rest[k - 1] && apps[k] == apps[1..][k - 1];
      }
    }
  }

  /** The outcome of the fetch effect: nothing happens without a user;
      otherwise the list shown, empty when the listing throws. */
  datatype Fetch = NotFetched | Listed(shown: seq<Shown>)

  function FetchApplications(user: Option<string>, store: Store): (r: Fetch)
    ensures r.NotFetched? <==> user.None?
    ensures user.Some? && store.listApplications(user.value).None? ==> r == Listed([])
    ensures user.Some? && store.listApplications(user.value).Some? ==>
      r == Listed(WithJobs(store.listApplications(user.value).value, store.getJob))
  {
    if user.None? then NotFetched
    else match store.listApplications(user.value)
      case None => Listed([])
      case Some(apps) => Listed(WithJobs(apps, store.getJob))
  }
}
