// The interview board (src/components/PlacementOfficer/InterviewManagement.jsx):
// a component-held list of interviews with one form that either edits the
// interview whose id is being edited or appends a new one, plus deletion,
// the status badge and the three status groups.
module InterviewManagement {
  import opened Optional
  import Lists

  /** An interview; `kind` is the source's `type` field. */
  datatype Interview = Interview(id: int, studentName: string, company: string, position: string,
                                 date: string, time: string, kind: string, status: string,
                                 feedback: string, interviewer: string)

  /** The form's fields; whatever id the form holds is always replaced when it is saved. */
  datatype InterviewForm = InterviewForm(studentName: string, company: string, position: string,
                                         date: string, time: string, kind: string, status: string,
                                         feedback: string, interviewer: string)

  const DefaultForm: InterviewForm := InterviewForm("", "", "", "", "", "Technical", "scheduled", "", "")

  function InterviewId(i: Interview): int { i.id }

  /** `{ ...formData, id }`. */
  function WithId(f: InterviewForm, id: int): (i: Interview)
    ensures i.id == id && FormOf(i) == f
  {
    Interview(id, f.studentName, f.company, f.position, f.date, f.time, f.kind, f.status, f.feedback,
              f.interviewer)
  }

  /** `setFormData(interview)`: the interview's fields loaded into the form. */
  function FormOf(i: Interview): InterviewForm
  {
    InterviewForm(i.studentName, i.company, i.position, i.date, i.time, i.kind, i.status, i.feedback,
                  i.interviewer)
  }

  /** `if (editingId)`: null and the falsy id 0 both mean "not editing". */
  predicate Editing(editingId: Option<int>)
  {
    editingId.Some? && editingId.value != 0
  }

  function ReplaceWith(f: InterviewForm, id: int): Interview -> Interview
  {
    (i: Interview) => WithId(f, id)
  }

  /**
   * The list after `handleSubmit`: while editing, every interview with the
   * edited id becomes the form under that id and the length is kept;
   * otherwise the form is appended under the new id.
   */
  function AfterSubmit(interviews: seq<Interview>, f: InterviewForm, editingId: Option<int>,
                       newId: int): (r: seq<Interview>)
    ensures Editing(editingId) ==> |r| == |interviews| && forall k :: 0 <= k < |r| ==>
      r[k] == if interviews[k].id == editingId.value then WithId(f, editingId.value) else interviews[k]
    ensures !Editing(editingId) ==> r == interviews + [WithId(f, newId)]
  {
    if Editing(editingId) then
      Lists.UpdateKeyAt(interviews, InterviewId, editingId.value, ReplaceWith(f, editingId.value));
      Lists.UpdateKey(interviews, InterviewId, editingId.value, ReplaceWith(f, editingId.value))
    else interviews + [WithId(f, newId)]
  }

  /**
   * Editing an interview and saving the form untouched gives back the same
   * list, when ids are unique and the id is not the falsy 0.
   */
  lemma EditThenSubmitUnchanged(interviews: seq<Interview>, i: Interview, newId: int)
    requires i in interviews && i.id != 0
    requires Lists.DistinctKeys(interviews, InterviewId)
    ensures AfterSubmit(interviews, FormOf(i), Some(i.id), newId) == interviews
  {
    var r := AfterSubmit(interviews, FormOf(i), Some(i.id), newId);
    forall k | 0 <= k < |interviews|
      ensures r[k] == interviews[k]
    {
      if interviews[k].id == i.id {
        var m :| 0 <= m < |interviews| && interviews[m] == i;
        assert InterviewId(interviews[k]) == InterviewId(interviews[m]);
      }
    }
  }

  /** `getStatusBadge(status).class`, with 'badge-info' for any unknown status. */
  function StatusBadge(status: string): (badge: string)
    ensures status == "completed" ==> badge == "badge-success"
    ensures status == "cancelled" ==> badge == "badge-danger"
    ensures status != "completed" && status != "cancelled" ==> badge == "badge-info"
  {
    if status == "scheduled" then "badge-info"
    else if status == "completed" then "badge-success"
    else if status == "cancelled" then "badge-danger"
    else "badge-info"
  }

  function IsScheduled(i: Interview): bool { i.status == "scheduled" }
  function IsCompleted(i: Interview): bool { i.status == "completed" }
  function IsCancelled(i: Interview): bool { i.status == "cancelled" }

  /** `groupedInterviews`: upcoming, completed and cancelled, each in list order. */
  function Grouped(interviews: seq<Interview>): (groups: (seq<Interview>, seq<Interview>, seq<Interview>))
    ensures forall i :: i in groups.0 <==> i in interviews && i.status == "scheduled"
    ensures forall i :: i in groups.1 <==> i in interviews && i.status == "completed"
    ensures forall i :: i in groups.2 <==> i in interviews && i.status == "cancelled"
  {
    (Lists.Filter(interviews, IsScheduled), Lists.Filter(interviews, IsCompleted),
     Lists.Filter(interviews, IsCancelled))
  }

  /**
   * The three groups never share an interview, so their sizes add up to at
   * most the total, and to exactly the total when every status is one of
   * the three.
   */
  lemma GroupsPartition(interviews: seq<Interview>)
    ensures var g := Grouped(interviews); |g.0| + |g.1| + |g.2| <= |interviews|
    ensures var g := Grouped(interviews); |g.0| + |g.1| + |g.2| == |interviews| <==>
      forall i :: i in interviews ==> i.status in {"scheduled", "completed", "cancelled"}
  {
    Lists.CountPartition(interviews, IsScheduled, IsCompleted, IsCancelled);
  }

  class Board {
    var interviews: seq<Interview>
    var form: InterviewForm
    var editingId: Option<int>
    var showForm: bool

    constructor(initial: seq<Interview>)
      ensures interviews == initial && form == DefaultForm && editingId == None && !showForm
    {
      interviews := initial;
      form := DefaultForm;
      editingId := None;
      showForm := false;
    }

    /** `handleSubmit`: save the form, stop editing, reset the form to its defaults and hide it. */
    method Submit(newId: int)
      modifies this
      ensures interviews == AfterSubmit(old(interviews), old(form), old(editingId), newId)
      ensures Editing(old(editingId)) ==> |interviews| == |old(interviews)| && editingId == None
      ensures !Editing(old(editingId)) ==> |interviews| == |old(interviews)| + 1 && editingId == old(editingId)
      ensures form == DefaultForm && !showForm
    {
      interviews := AfterSubmit(interviews, form, editingId, newId);
      if Editing(editingId) {
        editingId := None;
      }
      form := DefaultForm;
      showForm := false;
    }

    /** `handleEdit`: the interview goes into the form, its id is the one being edited, the form shows. */
    method Edit(interview: Interview)
      modifies this
      ensures form == FormOf(interview) && editingId == Some(interview.id) && showForm
      ensures interviews == old(interviews)
    {
      form := FormOf(interview);
      editingId := Some(interview.id);
      showForm := true;
    }

    /** `handleDelete`: exactly the interviews with that id go, the rest keep their order. */
    method Delete(id: int)
      modifies this
      ensures interviews == Lists.RemoveKey(old(interviews), InterviewId, id)
      ensures forall i :: i in interviews <==> i in old(interviews) && i.id != id
      ensures Lists.IsSubsequence(interviews, old(interviews))
      ensures form == old(form) && editingId == old(editingId) && showForm == old(showForm)
    {
      Lists.RemoveKeyExact(interviews, InterviewId, id);
      interviews := Lists.RemoveKey(interviews, InterviewId, id);
    }

    /** The header button: toggle the form, stop editing and reset the form. */
    method ToggleForm()
      modifies this
      ensures showForm == !old(showForm) && editingId == None && form == DefaultForm
      ensures interviews == old(interviews)
    {
      showForm := !showForm;
      editingId := None;
      form := DefaultForm;
    }
  }
}
