// A job card on the student side (src/components/Student/JobCard.jsx): the
// one place that keeps a student from applying twice, the apply form's
// gating, the handler that submits through the data store, and the date the
// card shows once the student has applied.
module JobCard {
  import opened Optional
  import Lists
  import DataStore

  type Application = DataStore.Application

  function ForJobBy(jobId: int, userId: string): Application -> bool
  {
    (a: Application) => a.jobId == jobId && a.studentId == userId
  }

  function ForJob(jobId: int): Application -> bool
  {
    (a: Application) => a.jobId == jobId
  }

  /** `alreadyApplied`: some application is for this job and by this student. */
  predicate AlreadyApplied(applications: seq<Application>, jobId: int, userId: string)
    ensures AlreadyApplied(applications, jobId, userId) <==> Lists.Count(applications, ForJobBy(jobId, userId)) > 0
  {
    var mine := Lists.Filter(applications, ForJobBy(jobId, userId));
    assert mine != [] ==> mine[0] in mine;
    exists a :: a in applications && ForJobBy(jobId, userId)(a)
  }

  /**
   * The Apply button and its form are rendered only when the student has not
   * applied; once an application by them for this job exists, they never
   * come back, whatever the store adds in front of it.
   */
  lemma ApplyOfferedUntilApplied(applications: seq<Application>, jobId: int, userId: string,
                                 newer: seq<Application>)
    ensures AlreadyApplied(applications, jobId, userId) ==> AlreadyApplied(newer + applications, jobId, userId)
    ensures AlreadyApplied(newer + applications, jobId, userId) <==>
      AlreadyApplied(newer, jobId, userId) || AlreadyApplied(applications, jobId, userId)
  {
    if AlreadyApplied(applications, jobId, userId) {
      var a :| a in applications && ForJobBy(jobId, userId)(a);
      assert a in newer + applications;
    }
    if AlreadyApplied(newer, jobId, userId) {
      var a :| a in newer && ForJobBy(jobId, userId)(a);
      assert a in newer + applications;
    }
  }

  /**
   * `handleApply` submits under the card's job and the student's id, so the
   * card shows the student as having applied afterwards, however the store
   * looked before.
   */
  lemma AppliedAfterApply(applications: seq<Application>, jobId: int, student: DataStore.StudentInfo,
                          today: string)
    ensures AlreadyApplied([DataStore.NewApplication(applications, jobId, student, today)] + applications,
                           jobId, student.id)
  {
    var a := DataStore.NewApplication(applications, jobId, student, today);
    assert a in [a] + applications;
  }

  /**
   * Applying while the card still offers the form leaves exactly one
   * application by the student for the job: the card is the guard the store
   * lacks.
   */
  lemma {:induction false} OneApplicationAfterApply(applications: seq<Application>, jobId: int,
                                                    student: DataStore.StudentInfo, today: string)
    requires !AlreadyApplied(applications, jobId, student.id)
    ensures Lists.Count([DataStore.NewApplication(applications, jobId, student, today)] + applications,
                        ForJobBy(jobId, student.id)) == 1
  {
    var a := DataStore.NewApplication(applications, jobId, student, today);
    var s := [a] + applications;
    assert s[1..] == applications;
    Lists.FilterKeepsNone(applications, ForJobBy(jobId, student.id));
  }

  /**
   * "Already applied on": the date of the first application for this job,
   * whoever made it -- the date as the card computes it.
   */
  function AppliedDate(applications: seq<Application>, jobId: int): (d: Option<string>)
    ensures d.None? <==> forall a :: a in applications ==> a.jobId != jobId
    ensures d.Some? ==> exists a :: a in applications && a.jobId == jobId && a.date == d.value
  {
    match Lists.Find(applications, ForJob(jobId))
    case None => None
    case Some(a) => Some(a.date)
  }

  /**
   * The card can show another student's date: here student "s2" applied on
   * 2024-02-22, but "s1" applied to the same job earlier in the list, so the
   * card of "s2" reads 2024-02-21.
   */
  lemma AppliedDateShowsOtherStudent()
    ensures var apps := [DataStore.Application(2, "s1", 1, "applied", "2024-02-21", "r1.pdf"),
                         DataStore.Application(1, "s2", 1, "applied", "2024-02-22", "r2.pdf")];
      && AlreadyApplied(apps, 1, "s2")
      && AppliedDate(apps, 1) == Some("2024-02-21")
      && forall a :: a in apps && a.jobId == 1 && a.studentId == "s2" ==> a.date != "2024-02-21"
  {
    var apps := [DataStore.Application(2, "s1", 1, "applied", "2024-02-21", "r1.pdf"),
                 DataStore.Application(1, "s2", 1, "applied", "2024-02-22", "r2.pdf")];
    assert ForJobBy(1, "s2")(apps[1]);
    assert ForJob(1)(apps[0]);
  }

  /** The date of this student's own latest application for this job. */
  function OwnAppliedDate(applications: seq<Application>, jobId: int, userId: string): (d: Option<string>)
    ensures d.Some? <==> AlreadyApplied(applications, jobId, userId)
    ensures d.Some? ==> exists a :: (a in applications && a.jobId == jobId && a.studentId == userId &&
      a.date == d.value)
  {
    match Lists.Find(applications, ForJobBy(jobId, userId))
    case None => None
    case Some(a) => Some(a.date)
  }

  /** Right after applying, the card shows the date of the application just made. */
  lemma OwnDateAfterApply(applications: seq<Application>, jobId: int, student: DataStore.StudentInfo,
                          today: string)
    ensures OwnAppliedDate([DataStore.NewApplication(applications, jobId, student, today)] + applications,
                           jobId, student.id) == Some(today)
  {
  }

  class Card {
    var showApplyForm: bool
    var resume: string
    var coverLetter: string
    var applying: bool

    constructor()
      ensures !showApplyForm && resume == "" && coverLetter == "" && !applying
    {
      showApplyForm := false;
      resume := "";
      coverLetter := "";
      applying := false;
    }

    /** The submit button is disabled while a submission runs or while the resume field is empty. */
    predicate SubmitDisabled()
      reads this
    {
      applying || resume == ""
    }

    /** The apply form is on screen: not applied yet and opened. */
    predicate FormShown(applications: seq<Application>, jobId: int, userId: string)
      reads this
    {
      !AlreadyApplied(applications, jobId, userId) && showApplyForm
    }

    /** The "Apply Now" button opens the form. */
    method OpenForm()
      modifies this
      ensures showApplyForm
      ensures resume == old(resume) && coverLetter == old(coverLetter) && applying == old(applying)
    {
      showApplyForm := true;
    }

    /**
     * `handleApply`: one application for this job under the student's id and
     * resume, then the form is cleared and closed and the card is no longer
     * busy. It runs from the submit button, so only while the form is shown
     * (the student has not applied) and the button is enabled; afterwards
     * the student has exactly one application for the job, and the button
     * is disabled again, the resume being cleared.
     */
    method HandleApply(store: DataStore.Store, jobId: int, userId: string, today: string)
      returns (app: Application)
      requires FormShown(store.applications, jobId, userId) && !SubmitDisabled()
      modifies this, store
      ensures app == DataStore.NewApplication(old(store.applications), jobId,
                                             DataStore.StudentInfo(userId, old(resume), old(coverLetter)), today)
      ensures store.applications == [app] + old(store.applications)
      ensures store.jobs == DataStore.Applied(old(store.jobs), jobId)
      ensures store.users == old(store.users) && store.placements == old(store.placements)
      ensures !showApplyForm && resume == "" && coverLetter == "" && !applying
      ensures SubmitDisabled()
      ensures AlreadyApplied(store.applications, jobId, userId)
      ensures Lists.Count(store.applications, ForJobBy(jobId, userId)) == 1
      ensures !FormShown(store.applications, jobId, userId)
    {
      applying := true;
      app := store.ApplyJob(jobId, DataStore.StudentInfo(userId, resume, coverLetter), today);
      AppliedAfterApply(old(store.applications), jobId, DataStore.StudentInfo(userId, old(resume), old(coverLetter)), today);
      OneApplicationAfterApply(old(store.applications), jobId,
                               DataStore.StudentInfo(userId, old(resume), old(coverLetter)), today);
      showApplyForm := false;
      resume := "";
      coverLetter := "";
      applying := false;
    }
  }
}
