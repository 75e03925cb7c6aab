// The employer dashboard (src/components/Employer/EmployerDashboard.jsx):
// the applications it lists, its three counters, the status changes it
// offers as buttons, and the handlers that post, delete and act on
// applications through the data store.
module EmployerDashboard {
  import opened Optional
  import opened Text
  import Lists
  import DataStore

  type Job = DataStore.Job
  type Application = DataStore.Application

  /** The job form: every field is the text of an input. */
  datatype JobForm = JobForm(title: string, salary: string, location: string, description: string,
                             skills: string)

  const EmptyForm: JobForm := JobForm("", "", "", "", "")

  function OnListedJob(jobs: seq<Job>): Application -> bool
  {
    (a: Application) => exists j :: j in jobs && j.id == a.jobId
  }

  /** `employerApplications`: the applications, in order, whose job is still in the list. */
  function EmployerApplications(applications: seq<Application>, jobs: seq<Job>): (r: seq<Application>)
    ensures forall a :: a in r <==> a in applications && exists j :: j in jobs && j.id == a.jobId
    ensures Lists.IsSubsequence(r, applications)
  {
    Lists.Filter(applications, OnListedJob(jobs))
  }

  /**
   * Deleting a job does not delete its applications from the store, but the
   * dashboard stops listing them.
   */
  lemma DeletedJobDropsOut(applications: seq<Application>, jobs: seq<Job>, id: int)
    ensures forall a :: a in EmployerApplications(applications, Lists.RemoveKey(jobs, DataStore.JobId, id)) ==>
      a.jobId != id
    ensures forall a :: a in EmployerApplications(applications, jobs) && a.jobId != id ==>
      a in EmployerApplications(applications, Lists.RemoveKey(jobs, DataStore.JobId, id))
  {
    Lists.RemoveKeyExact(jobs, DataStore.JobId, id);
  }

  function IsActive(j: Job): bool { j.status == "active" }

  function IsShortlisted(a: Application): bool { a.status == "shortlisted" }

  /** `activeJobs`: the jobs whose status is 'active'. */
  function ActiveJobs(jobs: seq<Job>): (n: nat)
    ensures n <= |jobs|
    ensures n == |jobs| <==> forall j :: j in jobs ==> j.status == "active"
  {
    Lists.CountAll(jobs, IsActive);
    Lists.Count(jobs, IsActive)
  }

  function TotalApplications(applications: seq<Application>, jobs: seq<Job>): nat
  {
    |EmployerApplications(applications, jobs)|
  }

  /** `shortlist`: the listed applications with status 'shortlisted'; never more than the total. */
  function Shortlist(applications: seq<Application>, jobs: seq<Job>): (n: nat)
    ensures n <= TotalApplications(applications, jobs)
  {
    Lists.Count(EmployerApplications(applications, jobs), IsShortlisted)
  }

  /**
   * The buttons shown for an application: 'applied' offers 'shortlisted' and
   * 'rejected', 'shortlisted' offers 'hired', and every other status none.
   */
  function Offered(status: string): (r: seq<string>)
    ensures status !in r
    ensures forall t :: t in r ==> t == "shortlisted" || t == "rejected" || t == "hired"
  {
    if status == "applied" then ["shortlisted", "rejected"]
    else if status == "shortlisted" then ["hired"]
    else []
  }

  /** How far along an application is: offered changes only move it forward. */
  function Stage(status: string): (n: nat)
    ensures n == 0 <==> status == "applied"
    ensures n == 1 <==> status == "shortlisted"
    ensures n == 2 <==> status != "applied" && status != "shortlisted"
  {
    if status == "applied" then 0
    else if status == "shortlisted" then 1
    else 2
  }

  /** Every offered change moves forward, and only 'applied' and 'shortlisted' offer any. */
  lemma OfferedMovesForward(status: string)
    ensures forall t :: t in Offered(status) ==> Stage(status) < Stage(t)
    ensures Offered(status) == [] <==> status != "applied" && status != "shortlisted"
    ensures "hired" in Offered(status) <==> status == "shortlisted"
    ensures "rejected" in Offered(status) <==> status == "applied"
  {
    assert "shortlisted" != "applied";
  }

  /** A run of offered changes. */
  ghost predicate OfferedChain(chain: seq<string>)
  {
    forall i :: 0 < i < |chain| ==> chain[i] in Offered(chain[i - 1])
  }

  /** Following the buttons, an application changes status at most twice. */
  lemma {:induction false} OfferedChainShort(chain: seq<string>)
    requires OfferedChain(chain)
    ensures |chain| <= 3
  {
    if |chain| > 0 {
      ChainStages(chain, |chain| - 1);
    }
  }

  lemma {:induction false} ChainStages(chain: seq<string>, i: nat)
    requires OfferedChain(chain) && i < |chain|
    ensures Stage(chain[i]) >= i
    decreases i
  {
    if i > 0 {
      ChainStages(chain, i - 1);
      OfferedMovesForward(chain[i - 1]);
    }
  }

  /**
   * A button's change to a listed application, with ids unique: the
   * application with that id takes a status its old one offers, so it moves
   * forward, and every other application is kept.
   */
  lemma ActionMovesForward(applications: seq<Application>, jobs: seq<Job>, appId: int, status: string)
    requires Lists.DistinctKeys(applications, DataStore.AppId)
    requires exists a :: a in EmployerApplications(applications, jobs) && a.id == appId && status in Offered(a.status)
    ensures var r := Lists.UpdateKey(applications, DataStore.AppId, appId, DataStore.SetAppStatus(status));
      |r| == |applications| &&
      forall i :: 0 <= i < |applications| ==>
        if applications[i].id == appId then
          r[i] == applications[i].(status := status) && status in Offered(applications[i].status) &&
          Stage(applications[i].status) < Stage(status)
        else r[i] == applications[i]
  {
    var a :| a in EmployerApplications(applications, jobs) && a.id == appId && status in Offered(a.status);
    var m :| 0 <= m < |applications| && applications[m] == a;
    Lists.UpdateKeyAt(applications, DataStore.AppId, appId, DataStore.SetAppStatus(status));
    OfferedMovesForward(a.status);
    forall i | 0 <= i < |applications| && applications[i].id == appId
      ensures i == m
    {
      assert DataStore.AppId(applications[i]) == DataStore.AppId(applications[m]);
    }
  }

  /** `formData.skills.split(',').map(s => s.trim())`. */
  function SkillList(text: string): (skills: seq<string>)
    ensures |skills| == Occurrences(text, ',') + 1
    ensures forall k :: 0 <= k < |skills| ==> skills[k] == Trim(Split(text, ',')[k])
    ensures forall k :: 0 <= k < |skills| ==> ',' !in skills[k]
    ensures text == "" ==> skills == [""]
  {
    var pieces := Split(text, ',');
    var skills := Lists.Map(pieces, Trim);
    assert forall k :: 0 <= k < |skills| ==> ',' !in skills[k] by {
      forall k | 0 <= k < |skills|
        ensures ',' !in skills[k]
      {
        assert pieces[k] in pieces;
        TrimKeepsAbsent(pieces[k], ',');
      }
    }
    skills
  }

  /** The guard of `handleAddJob`: title, salary and location are filled in. */
  predicate CanPost(form: JobForm)
  {
    form.title != "" && form.salary != "" && form.location != ""
  }

  /** The job the handler hands to `addJob`. */
  function JobInputOf(form: JobForm, company: Option<string>, deadline: string): DataStore.JobInput
  {
    DataStore.JobInput(form.title, company, form.salary, form.location, form.description,
                       SkillList(form.skills), deadline)
  }

  class Dashboard {
    var form: JobForm
    var showJobForm: bool

    constructor()
      ensures form == EmptyForm && !showJobForm
    {
      form := EmptyForm;
      showJobForm := false;
    }

    /**
     * `handleAddJob`: with the guard met, the form's job is posted under the
     * employer's company, the form is cleared and hidden. A missing company
     * makes `addJob` throw, so the form stays as it was. With the guard
     * unmet nothing happens.
     */
    method HandleAddJob(store: DataStore.Store, company: Option<string>, deadline: string, today: string)
      returns (posted: Option<Job>)
      modifies this, store
      ensures !CanPost(old(form)) ==> posted == None && store.jobs == old(store.jobs)
      ensures CanPost(old(form)) ==>
        posted == DataStore.NewJob(old(store.jobs), JobInputOf(old(form), company, deadline), today)
      ensures posted.Some? ==> store.jobs == [posted.value] + old(store.jobs) && form == EmptyForm && !showJobForm
      ensures posted.None? ==> store.jobs == old(store.jobs) && form == old(form) && showJobForm == old(showJobForm)
      ensures store.users == old(store.users) && store.applications == old(store.applications)
      ensures store.placements == old(store.placements)
    {
      posted := None;
      if CanPost(form) {
        posted := store.AddJob(JobInputOf(form, company, deadline), today);
        if posted.Some? {
          form := EmptyForm;
          showJobForm := false;
        }
      }
    }

    /** `handleDeleteJob`: the job is deleted only when the user confirms. */
    method HandleDeleteJob(store: DataStore.Store, jobId: int, confirmed: bool)
      modifies store
      ensures confirmed ==> store.jobs == Lists.RemoveKey(old(store.jobs), DataStore.JobId, jobId)
      ensures !confirmed ==> store.jobs == old(store.jobs)
      ensures store.users == old(store.users) && store.applications == old(store.applications)
      ensures store.placements == old(store.placements)
    {
      if confirmed {
        store.DeleteJob(jobId);
      }
    }

    /**
     * `handleApplicationAction`: the application's status is set to the
     * button's status. The buttons exist only under a listed application and
     * only for the statuses its current one offers; with unique ids the
     * application therefore moves forward.
     */
    method HandleApplicationAction(store: DataStore.Store, appId: int, status: string)
      requires exists a :: (a in EmployerApplications(store.applications, store.jobs) && a.id == appId &&
                            status in Offered(a.status))
      modifies store
      ensures store.applications ==
        Lists.UpdateKey(old(store.applications), DataStore.AppId, appId, DataStore.SetAppStatus(status))
      ensures |store.applications| == |old(store.applications)|
      ensures old(store.Valid()) ==>
        forall i :: (0 <= i < |old(store.applications)| && old(store.applications)[i].id == appId) ==>
          (store.applications[i].status == status && status in Offered(old(store.applications)[i].status) &&
           Stage(old(store.applications)[i].status) < Stage(store.applications[i].status))
      ensures store.jobs == old(store.jobs) && store.users == old(store.users)
      ensures store.placements == old(store.placements)
    {
      if store.Valid() {
        ActionMovesForward(store.applications, store.jobs, appId, status);
      }
      store.UpdateApplicationStatus(appId, status);
    }
  }
}
