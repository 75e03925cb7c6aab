// The company directory (src/components/Admin/CompanyProfiles.jsx): a
// component-held list of companies and one form that either edits the
// company being edited or appends a new one with fresh defaults.
module CompanyProfiles {
  import opened Optional
  import Lists

  datatype Company = Company(id: int, name: string, logo: string, description: string, industry: string,
                             location: string, website: string, email: string, phone: string,
                             employees: string, founded: int, activeJobs: int, visits: int, verified: bool)

  /** The keys only a loaded company brings into the form. */
  datatype Extras = Extras(logo: string, activeJobs: int, visits: int, verified: bool)

  /**
   * The form: the nine input fields, and the extra keys when a company was
   * loaded into it by `handleEdit` (a reset form has none).
   */
  datatype CompanyForm = CompanyForm(name: string, description: string, industry: string, location: string,
                                     website: string, email: string, phone: string, employees: string,
                                     founded: int, extras: Option<Extras>)

  const NewCompanyLogo: string := "\U{1F3E2}"

  function CompanyId(c: Company): int { c.id }

  /** `resetForm`'s fields: all empty, founded this year, nothing loaded. */
  function BlankForm(currentYear: int): CompanyForm
  {
    CompanyForm("", "", "", "", "", "", "", "", currentYear, None)
  }

  /** `setFormData(company)`: the whole company goes into the form. */
  function FormOf(c: Company): (f: CompanyForm)
    ensures f.extras.Some?
  {
    CompanyForm(c.name, c.description, c.industry, c.location, c.website, c.email, c.phone, c.employees,
                c.founded, Some(Extras(c.logo, c.activeJobs, c.visits, c.verified)))
  }

  /** `{ ...formData, id }` for a form that holds a loaded company. */
  function Edited(f: CompanyForm, id: int): (c: Company)
    requires f.extras.Some?
    ensures c.id == id && FormOf(c) == f
  {
    Company(id, f.name, f.extras.value.logo, f.description, f.industry, f.location, f.website, f.email,
            f.phone, f.employees, f.founded, f.extras.value.activeJobs, f.extras.value.visits,
            f.extras.value.verified)
  }

  /** The appended company: the form's fields under the new id, no jobs, no visits, unverified, the default logo. */
  function Added(f: CompanyForm, id: int): (c: Company)
    ensures c.id == id && c.activeJobs == 0 && c.visits == 0 && !c.verified && c.logo == NewCompanyLogo
    ensures c.name == f.name && c.description == f.description && c.industry == f.industry
    ensures c.location == f.location && c.website == f.website && c.email == f.email
    ensures c.phone == f.phone && c.employees == f.employees && c.founded == f.founded
  {
    Company(id, f.name, NewCompanyLogo, f.description, f.industry, f.location, f.website, f.email, f.phone,
            f.employees, f.founded, 0, 0, false)
  }

  /** `if (editingId)`: null and the falsy id 0 both mean "not editing". */
  predicate Editing(editingId: Option<int>)
  {
    editingId.Some? && editingId.value != 0
  }

  function ReplaceWith(f: CompanyForm, id: int): Company -> Company
    requires f.extras.Some?
  {
    (c: Company) => Edited(f, id)
  }

  /**
   * The list after `handleSave`: while editing, only the companies with the
   * edited id are replaced, by the form under that id, and the length is
   * kept; otherwise one company built from the form is appended.
   */
  function AfterSave(companies: seq<Company>, f: CompanyForm, editingId: Option<int>, newId: int)
    : (r: seq<Company>)
    requires Editing(editingId) ==> f.extras.Some?
    ensures Editing(editingId) ==> |r| == |companies| && forall k :: 0 <= k < |r| ==>
      r[k] == if companies[k].id == editingId.value then Edited(f, editingId.value) else companies[k]
    ensures !Editing(editingId) ==> r == companies + [Added(f, newId)]
  {
    if Editing(editingId) then
      Lists.UpdateKeyAt(companies, CompanyId, editingId.value, ReplaceWith(f, editingId.value));
      Lists.UpdateKey(companies, CompanyId, editingId.value, ReplaceWith(f, editingId.value))
    else companies + [Added(f, newId)]
  }

  /**
   * Editing a company and saving without touching the form leaves the list
   * as it was, because the whole record went into the form; this needs
   * unique ids and an id other than the falsy 0.
   */
  lemma EditThenSaveUnchanged(companies: seq<Company>, c: Company, newId: int)
    requires c in companies && c.id != 0
    requires Lists.DistinctKeys(companies, CompanyId)
    ensures AfterSave(companies, FormOf(c), Some(c.id), newId) == companies
  {
    var r := AfterSave(companies, FormOf(c), Some(c.id), newId);
    forall k | 0 <= k < |companies|
      ensures r[k] == companies[k]
    {
      if companies[k].id == c.id {
        var m :| 0 <= m < |companies| && companies[m] == c;
        assert CompanyId(companies[k]) == CompanyId(companies[m]);
      }
    }
  }

  class Directory {
    var companies: seq<Company>
    var form: CompanyForm
    var editingId: Option<int>
    var showForm: bool

    /** Whenever an id is being edited, the form holds a whole loaded company. */
    predicate Valid()
      reads this
    {
      editingId.Some? ==> form.extras.Some?
    }

    constructor(initial: seq<Company>, currentYear: int)
      ensures companies == initial && form == BlankForm(currentYear) && editingId == None && !showForm
      ensures Valid()
    {
      companies := initial;
      form := BlankForm(currentYear);
      editingId := None;
      showForm := false;
    }

    /** `handleEdit`: the company goes into the form, its id is the one being edited, the form shows. */
    method Edit(company: Company)
      modifies this
      ensures form == FormOf(company) && editingId == Some(company.id) && showForm
      ensures companies == old(companies)
      ensures Valid()
    {
      form := FormOf(company);
      editingId := Some(company.id);
      showForm := true;
    }

    /** `resetForm`: blank fields, founded this year, form hidden, not editing. */
    method ResetForm(currentYear: int)
      modifies this
      ensures form == BlankForm(currentYear) && !showForm && editingId == None
      ensures companies == old(companies)
      ensures Valid()
    {
      form := BlankForm(currentYear);
      showForm := false;
      editingId := None;
    }

    /** `handleSave`: save the form, then reset it. */
    method Save(newId: int, currentYear: int)
      requires Valid()
      modifies this
      ensures companies == AfterSave(old(companies), old(form), old(editingId), newId)
      ensures Editing(old(editingId)) ==> |companies| == |old(companies)|
      ensures !Editing(old(editingId)) ==> |companies| == |old(companies)| + 1
      ensures form == BlankForm(currentYear) && !showForm && editingId == None
      ensures Valid()
    {
      companies := AfterSave(companies, form, editingId, newId);
      ResetForm(currentYear);
    }

    /** `handleDelete`: exactly the companies with that id go, the rest keep their order. */
    method Delete(id: int)
      modifies this
      ensures companies == Lists.RemoveKey(old(companies), CompanyId, id)
      ensures forall c :: c in companies <==> c in old(companies) && c.id != id
      ensures Lists.IsSubsequence(companies, old(companies))
      ensures form == old(form) && editingId == old(editingId) && showForm == old(showForm)
    {
      Lists.RemoveKeyExact(companies, CompanyId, id);
      companies := Lists.RemoveKey(companies, CompanyId, id);
    }

    /** The "+ Add Company" / "Cancel" button only shows or hides the form. */
    method ToggleForm()
      modifies this
      ensures showForm == !old(showForm)
      ensures companies == old(companies) && form == old(form) && editingId == old(editingId)
    {
      showForm := !showForm;
    }
  }
}
