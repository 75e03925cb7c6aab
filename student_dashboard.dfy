// The student dashboard (src/components/Student/StudentDashboard.jsx): the
// job search with its optional skill filter, the list of skills offered in
// the filter, and the application counters.
module StudentDashboard {
  import opened Text
  import Lists
  import DataStore

  type Job = DataStore.Job
  type Application = DataStore.Application

  /** The search term occurs, ignoring case, in the job's title or company. */
  predicate MatchesSearch(job: Job, searchTerm: string)
  {
    Contains(ToLower(job.title), ToLower(searchTerm)) || Contains(ToLower(job.company), ToLower(searchTerm))
  }

  /** No skill chosen, or the job lists exactly that skill. */
  predicate MatchesSkill(job: Job, filterSkill: string)
  {
    filterSkill == "" || filterSkill in job.skills
  }

  function Matches(searchTerm: string, filterSkill: string): Job -> bool
  {
    (j: Job) => MatchesSearch(j, searchTerm) && MatchesSkill(j, filterSkill)
  }

  /** `defaultFiltered`: the jobs, in order, that match the search and the skill filter. */
  function DefaultFiltered(jobs: seq<Job>, searchTerm: string, filterSkill: string): (r: seq<Job>)
    ensures Lists.IsSubsequence(r, jobs)
    ensures forall j :: j in r <==> j in jobs && MatchesSearch(j, searchTerm) && MatchesSkill(j, filterSkill)
    ensures filterSkill != "" ==> forall j :: j in r ==> filterSkill in j.skills
  {
    Lists.Filter(jobs, Matches(searchTerm, filterSkill))
  }

  /** With an empty search and no skill chosen every job is listed, in order. */
  lemma NoFilterListsAll(jobs: seq<Job>)
    ensures DefaultFiltered(jobs, "", "") == jobs
  {
    forall j | j in jobs
      ensures Matches("", "")(j)
    {
      ContainsEmpty(ToLower(j.title));
    }
    Lists.FilterKeepsAll(jobs, Matches("", ""));
  }

  function JobSkills(j: Job): seq<string> { j.skills }

  /** `allSkills`: every skill of every job, each once, in order of first occurrence. */
  function AllSkills(jobs: seq<Job>): (r: seq<string>)
    ensures Lists.NoDuplicates(r)
    ensures forall s :: s in r <==> exists j :: j in jobs && s in j.skills
    ensures Lists.IsSubsequence(r, Lists.FlatMap(jobs, JobSkills))
    ensures var flat := Lists.FlatMap(jobs, JobSkills);
      forall i, j :: 0 <= i < j < |r| ==>
        r[i] in flat && r[j] in flat && Lists.IndexOf(flat, r[i]) < Lists.IndexOf(flat, r[j])
  {
    Lists.Dedup(Lists.FlatMap(jobs, JobSkills))
  }

  function IsApplied(a: Application): bool { a.status == "applied" }

  function IsShortlisted(a: Application): bool { a.status == "shortlisted" }

  /** `appliedCount + shortlistedCount <= applicationsCount`: no application is counted twice. */
  lemma CountsBounded(applications: seq<Application>)
    ensures Lists.Count(applications, IsApplied) + Lists.Count(applications, IsShortlisted) <= |applications|
  {
    Lists.CountDisjoint(applications, IsApplied, IsShortlisted);
  }
}
