// The data context (src/context/DataContext.jsx): four lists of records --
// jobs, directory users, applications and placements -- each replaced as a
// whole by the operations. New records get `Math.max(...ids, 0) + 1` and go
// to the front; updates rewrite the matching records and deletes filter them
// out, without touching the other lists.
module DataStore {
  import opened Optional
  import opened Text
  import Lists

  datatype Job = Job(id: int, title: string, company: string, salary: string, location: string,
                     description: string, skills: seq<string>, posted: string, deadline: string,
                     applicants: int, status: string, logo: string)

  /** What a caller passes to `addJob`; `company` is absent when the poster has none. */
  datatype JobInput = JobInput(title: string, company: Option<string>, salary: string, location: string,
                               description: string, skills: seq<string>, deadline: string)

  /** The keys a partial update may carry; an absent key keeps the job's value. */
  datatype JobPatch = JobPatch(title: Option<string>, company: Option<string>, salary: Option<string>,
                               location: Option<string>, description: Option<string>,
                               skills: Option<seq<string>>, posted: Option<string>, deadline: Option<string>,
                               applicants: Option<int>, status: Option<string>, logo: Option<string>)

  datatype Application = Application(id: int, studentId: string, jobId: int, status: string,
                                     date: string, resume: string)

  /** What `applyJob` receives about the student; the cover letter is not stored. */
  datatype StudentInfo = StudentInfo(id: string, resume: string, coverLetter: string)

  datatype Placement = Placement(id: int, studentName: string, companyName: string, position: string,
                                 salary: string, date: string)

  datatype PlacementInput = PlacementInput(studentName: string, companyName: string, position: string,
                                           salary: string)

  datatype DirectoryUser = DirectoryUser(id: int, name: string, email: string, role: string,
                                         status: string, joinDate: string)

  datatype UserInput = UserInput(name: string, email: string, role: string)

  function JobId(j: Job): int { j.id }
  function AppId(a: Application): int { a.id }
  function PlacementId(p: Placement): int { p.id }
  function UserId(u: DirectoryUser): int { u.id }

  const LogoBase: string := "https://via.placeholder.com/100/2563eb/ffffff?text="

  /**
   * The job `addJob` builds: the next id, the caller's fields, today's date,
   * no applicants, status 'active' and a logo labelled with the first three
   * letters of the company, upper-cased. Without a company the logo
   * expression throws, which is None here.
   */
  function NewJob(jobs: seq<Job>, input: JobInput, today: string): (r: Option<Job>)
    ensures r.None? <==> input.company.None?
    ensures r.Some? ==> forall j :: j in jobs ==> j.id < r.value.id
    ensures r.Some? ==> r.value.id >= 1 && (jobs == [] ==> r.value.id == 1)
    ensures r.Some? ==> r.value.applicants == 0 && r.value.status == "active" && r.value.posted == today
    ensures r.Some? ==> (r.value.title == input.title && Some(r.value.company) == input.company &&
      r.value.salary == input.salary && r.value.location == input.location &&
      r.value.description == input.description && r.value.skills == input.skills &&
      r.value.deadline == input.deadline)
    ensures r.Some? ==> (LogoBase <= r.value.logo &&
      |r.value.logo| == |LogoBase| + (if |r.value.company| < 3 then |r.value.company| else 3))
    ensures r.Some? ==> forall k :: 0 <= k < (if |r.value.company| < 3 then |r.value.company| else 3) ==>
      r.value.logo[|LogoBase| + k] == UpperChar(r.value.company[k])
  {
    match input.company
    case None => None
    case Some(company) =>
      Some(Job(Lists.NextKey(jobs, JobId), input.title, company, input.salary, input.location,
               input.description, input.skills, today, input.deadline, 0, "active",
               LogoBase + ToUpper(Prefix(company, 3))))
  }

  function OrElse<T>(o: Option<T>, d: T): T
  {
    if o.Some? then o.value else d
  }

  /** `{ ...job, ...jobData }`: the patch's keys override, the id and every other field are kept. */
  function ApplyJobPatch(j: Job, p: JobPatch): (r: Job)
    ensures r.id == j.id
    ensures p == JobPatch(None, None, None, None, None, None, None, None, None, None, None) ==> r == j
    ensures p.title.Some? ==> r.title == p.title.value
    ensures p.title.None? ==> r.title == j.title
    ensures p.company.Some? ==> r.company == p.company.value
    ensures p.company.None? ==> r.company == j.company
    ensures p.salary.Some? ==> r.salary == p.salary.value
    ensures p.salary.None? ==> r.salary == j.salary
    ensures p.location.Some? ==> r.location == p.location.value
    ensures p.location.None? ==> r.location == j.location
    ensures p.description.Some? ==> r.description == p.description.value
    ensures p.description.None? ==> r.description == j.description
    ensures p.skills.Some? ==> r.skills == p.skills.value
    ensures p.skills.None? ==> r.skills == j.skills
    ensures p.posted.Some? ==> r.posted == p.posted.value
    ensures p.posted.None? ==> r.posted == j.posted
    ensures p.deadline.Some? ==> r.deadline == p.deadline.value
    ensures p.deadline.None? ==> r.deadline == j.deadline
    ensures p.applicants.Some? ==> r.applicants == p.applicants.value
    ensures p.applicants.None? ==> r.applicants == j.applicants
    ensures p.status.Some? ==> r.status == p.status.value
    ensures p.status.None? ==> r.status == j.status
    ensures p.logo.Some? ==> r.logo == p.logo.value
    ensures p.logo.None? ==> r.logo == j.logo
  {
    Job(j.id, OrElse(p.title, j.title), OrElse(p.company, j.company), OrElse(p.salary, j.salary),
        OrElse(p.location, j.location), OrElse(p.description, j.description), OrElse(p.skills, j.skills),
        OrElse(p.posted, j.posted), OrElse(p.deadline, j.deadline), OrElse(p.applicants, j.applicants),
        OrElse(p.status, j.status), OrElse(p.logo, j.logo))
  }

  function PatchJob(p: JobPatch): Job -> Job
  {
    j => ApplyJobPatch(j, p)
  }

  function AddApplicant(): Job -> Job
  {
    (j: Job) => j.(applicants := j.applicants + 1)
  }

  function SetAppStatus(status: string): Application -> Application
  {
    (a: Application) => a.(status := status)
  }

  /** The jobs after one application to jobId: that job's applicant count is one higher. */
  function Applied(jobs: seq<Job>, jobId: int): (r: seq<Job>)
    ensures |r| == |jobs|
    ensures forall i :: 0 <= i < |jobs| ==>
      r[i] == if jobs[i].id == jobId then jobs[i].(applicants := jobs[i].applicants + 1) else jobs[i]
  {
    Lists.UpdateKeyAt(jobs, JobId, jobId, AddApplicant());
    Lists.UpdateKey(jobs, JobId, jobId, AddApplicant())
  }

  /** Nothing stops a second application: two applies raise the count by two. */
  lemma {:induction false} AppliedTwice(jobs: seq<Job>, jobId: int)
    ensures forall i :: 0 <= i < |jobs| ==>
      Applied(Applied(jobs, jobId), jobId)[i].applicants ==
        jobs[i].applicants + (if jobs[i].id == jobId then 2 else 0)
    ensures forall i :: 0 <= i < |jobs| ==>
      Applied(Applied(jobs, jobId), jobId)[i].(applicants := jobs[i].applicants) == jobs[i]
  {
    var once := Applied(jobs, jobId);
    var twice := Applied(once, jobId);
    forall i | 0 <= i < |jobs|
      ensures twice[i].applicants == jobs[i].applicants + (if jobs[i].id == jobId then 2 else 0)
      ensures twice[i].(applicants := jobs[i].applicants) == jobs[i]
    {
      assert once[i].id == jobs[i].id;
    }
  }

  /** The application `applyJob` builds: the next id, status 'applied', the job and the student's id and resume. */
  function NewApplication(applications: seq<Application>, jobId: int, student: StudentInfo,
                          today: string): (a: Application)
    ensures forall x :: x in applications ==> x.id < a.id
    ensures a.id >= 1 && (applications == [] ==> a.id == 1)
    ensures a.status == "applied" && a.jobId == jobId && a.studentId == student.id
    ensures a.resume == student.resume && a.date == today
  {
    Application(Lists.NextKey(applications, AppId), student.id, jobId, "applied", today, student.resume)
  }

  /**
   * Applying twice to the same job gives two applications for the same job
   * and student under two different ids: the store does not look for an
   * earlier one.
   */
  lemma ApplyTwiceTwoApplications(applications: seq<Application>, jobId: int, student: StudentInfo,
                                  today: string)
    ensures var a1 := NewApplication(applications, jobId, student, today);
      var a2 := NewApplication([a1] + applications, jobId, student, today);
      a1.jobId == a2.jobId && a1.studentId == a2.studentId && a1.id < a2.id
  {
    var a1 := NewApplication(applications, jobId, student, today);
    assert a1 in [a1] + applications;
  }

  /** The placement `addPlacement` builds: the next id, the caller's fields and today's date. */
  function NewPlacement(placements: seq<Placement>, input: PlacementInput, today: string): (p: Placement)
    ensures forall x :: x in placements ==> x.id < p.id
    ensures p.id >= 1 && (placements == [] ==> p.id == 1)
    ensures p.studentName == input.studentName && p.companyName == input.companyName
    ensures p.position == input.position && p.salary == input.salary && p.date == today
  {
    Placement(Lists.NextKey(placements, PlacementId), input.studentName, input.companyName,
              input.position, input.salary, today)
  }

  /** The directory entry `addUser` builds: the next id, status 'active' and today as join date. */
  function NewDirectoryUser(users: seq<DirectoryUser>, input: UserInput, today: string): (u: DirectoryUser)
    ensures forall x :: x in users ==> x.id < u.id
    ensures u.id >= 1 && (users == [] ==> u.id == 1)
    ensures u.name == input.name && u.email == input.email && u.role == input.role
    ensures u.status == "active" && u.joinDate == today
  {
    DirectoryUser(Lists.NextKey(users, UserId), input.name, input.email, input.role, "active", today)
  }

  class Store {
    var jobs: seq<Job>
    var users: seq<DirectoryUser>
    var applications: seq<Application>
    var placements: seq<Placement>

    /** Ids are unique in every list. */
    predicate Valid()
      reads this
    {
      && Lists.DistinctKeys(jobs, JobId)
      && Lists.DistinctKeys(users, UserId)
      && Lists.DistinctKeys(applications, AppId)
      && Lists.DistinctKeys(placements, PlacementId)
    }

    constructor(jobs0: seq<Job>, users0: seq<DirectoryUser>, applications0: seq<Application>,
                placements0: seq<Placement>)
      ensures jobs == jobs0 && users == users0 && applications == applications0 && placements == placements0
      ensures (Lists.DistinctKeys(jobs0, JobId) && Lists.DistinctKeys(users0, UserId) &&
               Lists.DistinctKeys(applications0, AppId) && Lists.DistinctKeys(placements0, PlacementId))
              ==> Valid()
    {
      jobs := jobs0;
      users := users0;
      applications := applications0;
      placements := placements0;
    }

    /** `addJob`: the new job goes in front of the old list, which follows unchanged. */
    method AddJob(input: JobInput, today: string) returns (r: Option<Job>)
      modifies this
      ensures r == NewJob(old(jobs), input, today)
      ensures r.Some? ==> jobs == [r.value] + old(jobs)
      ensures r.None? ==> jobs == old(jobs)
      ensures users == old(users) && applications == old(applications) && placements == old(placements)
      ensures old(Valid()) ==> Valid()
    {
      r := NewJob(jobs, input, today);
      if r.Some? {
        if Valid() {
          Lists.PrependNextKeyDistinct(jobs, JobId, r.value);
        }
        jobs := [r.value] + jobs;
      }
    }

    /** `updateJob`: the patch is merged into the jobs with that id; length and the other jobs are kept. */
    method UpdateJob(id: int, patch: JobPatch)
      modifies this
      ensures jobs == Lists.UpdateKey(old(jobs), JobId, id, PatchJob(patch))
      ensures |jobs| == |old(jobs)|
      ensures forall i :: 0 <= i < |jobs| ==>
        jobs[i] == if old(jobs)[i].id == id then ApplyJobPatch(old(jobs)[i], patch) else old(jobs)[i]
      ensures users == old(users) && applications == old(applications) && placements == old(placements)
      ensures old(Valid()) ==> Valid()
    {
      Lists.UpdateKeyAt(jobs, JobId, id, PatchJob(patch));
      if Valid() {
        Lists.UpdateKeyDistinct(jobs, JobId, id, PatchJob(patch));
      }
      jobs := Lists.UpdateKey(jobs, JobId, id, PatchJob(patch));
    }

    /**
     * `deleteJob`: exactly the jobs with that id go, the rest keep their
     * order; applications to the job stay in the store.
     */
    method DeleteJob(id: int)
      modifies this
      ensures jobs == Lists.RemoveKey(old(jobs), JobId, id)
      ensures forall j :: j in jobs <==> j in old(jobs) && j.id != id
      ensures Lists.IsSubsequence(jobs, old(jobs))
      ensures (forall j :: j in old(jobs) ==> j.id != id) ==> jobs == old(jobs)
      ensures users == old(users) && applications == old(applications) && placements == old(placements)
      ensures old(Valid()) ==> Valid()
    {
      Lists.RemoveKeyExact(jobs, JobId, id);
      if Valid() {
        Lists.RemoveKeyDistinct(jobs, JobId, id);
      }
      jobs := Lists.RemoveKey(jobs, JobId, id);
    }

    /**
     * `applyJob`: one new application in front, and the job with that id
     * gets one more applicant; nothing checks for an earlier application.
     */
    method ApplyJob(jobId: int, student: StudentInfo, today: string) returns (app: Application)
      modifies this
      ensures app == NewApplication(old(applications), jobId, student, today)
      ensures applications == [app] + old(applications)
      ensures jobs == Applied(old(jobs), jobId)
      ensures users == old(users) && placements == old(placements)
      ensures old(Valid()) ==> Valid()
    {
      app := NewApplication(applications, jobId, student, today);
      if Valid() {
        Lists.PrependNextKeyDistinct(applications, AppId, app);
        Lists.UpdateKeyDistinct(jobs, JobId, jobId, AddApplicant());
      }
      applications := [app] + applications;
      jobs := Applied(jobs, jobId);
    }

    /** `updateApplicationStatus`: only that application's status changes, to any value given. */
    method UpdateApplicationStatus(id: int, status: string)
      modifies this
      ensures applications == Lists.UpdateKey(old(applications), AppId, id, SetAppStatus(status))
      ensures |applications| == |old(applications)|
      ensures forall i :: 0 <= i < |applications| ==>
        applications[i] == if old(applications)[i].id == id then old(applications)[i].(status := status)
                           else old(applications)[i]
      ensures jobs == old(jobs) && users == old(users) && placements == old(placements)
      ensures old(Valid()) ==> Valid()
    {
      Lists.UpdateKeyAt(applications, AppId, id, SetAppStatus(status));
      if Valid() {
        Lists.UpdateKeyDistinct(applications, AppId, id, SetAppStatus(status));
      }
      applications := Lists.UpdateKey(applications, AppId, id, SetAppStatus(status));
    }

    /** `addPlacement`: the new placement goes in front. */
    method AddPlacement(input: PlacementInput, today: string) returns (p: Placement)
      modifies this
      ensures p == NewPlacement(old(placements), input, today)
      ensures placements == [p] + old(placements)
      ensures jobs == old(jobs) && users == old(users) && applications == old(applications)
      ensures old(Valid()) ==> Valid()
    {
      p := NewPlacement(placements, input, today);
      if Valid() {
        Lists.PrependNextKeyDistinct(placements, PlacementId, p);
      }
      placements := [p] + placements;
    }

    /** `addUser`: the new directory entry goes in front. */
    method AddUser(input: UserInput, today: string) returns (u: DirectoryUser)
      modifies this
      ensures u == NewDirectoryUser(old(users), input, today)
      ensures users == [u] + old(users)
      ensures jobs == old(jobs) && applications == old(applications) && placements == old(placements)
      ensures old(Valid()) ==> Valid()
    {
      u := NewDirectoryUser(users, input, today);
      if Valid() {
        Lists.PrependNextKeyDistinct(users, UserId, u);
      }
      users := [u] + users;
    }

    /** `deleteUser`: exactly the entries with that id go, the rest keep their order. */
    method DeleteUser(id: int)
      modifies this
      ensures users == Lists.RemoveKey(old(users), UserId, id)
      ensures forall u :: u in users <==> u in old(users) && u.id != id
      ensures Lists.IsSubsequence(users, old(users))
      ensures (forall u :: u in old(users) ==> u.id != id) ==> users == old(users)
      ensures jobs == old(jobs) && applications == old(applications) && placements == old(placements)
      ensures old(Valid()) ==> Valid()
    {
      Lists.RemoveKeyExact(users, UserId, id);
      if Valid() {
        Lists.RemoveKeyDistinct(users, UserId, id);
      }
      users := Lists.RemoveKey(users, UserId, id);
    }
  }
}
