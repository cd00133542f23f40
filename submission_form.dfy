/** The rules of `src/components/JobSubmissionForm.tsx`: validation of the
    eight form fields, submission into the job store, allocation of a fresh
    `P<n>` id for a user-added project, deletion of a user project, and the
    ordering of the merged project list. React state becomes the fields of a
    class; `window.confirm` is a boolean parameter. */
module SubmissionForm {
  import opened Wrappers
  import opened JsText
  import opened Seqs
  import opened JobTypes
  import opened Registry
  import opened Projects
  import opened Storage
  import opened JobManager

  // ---------------------------------------------------------------------------
  // Validation

  /** `JobFormData`; the field `type` is called `jobType`. */
  datatype FormData = FormData(
    project: string,
    computation: string,
    package: string,
    jobType: string,
    title: string,
    objectives: string,
    requirements: string,
    submittedBy: string)

  const EmptyForm := FormData("", "", "", "", "", "", "", "")

  datatype Field =
    | ProjectField | ComputationField | PackageField | TypeField
    | TitleField | ObjectivesField | RequirementsField | SubmittedByField

  const AllFields: set<Field> := {ProjectField, ComputationField, PackageField, TypeField,
                                  TitleField, ObjectivesField, RequirementsField, SubmittedByField}

  /** The four drop-down selections, checked without trimming. */
  predicate IsSelection(f: Field) {
    f in {ProjectField, ComputationField, PackageField, TypeField}
  }

  /** The message `validateForm` records for a failing field. */
  function ErrorMessage(f: Field): string {
    match f
    case ProjectField => "Please select a project"
    case ComputationField => "Please select a computation"
    case PackageField => "Please select a package"
    case TypeField => "Please select a type"
    case TitleField => "Title is required"
    case ObjectivesField => "Objectives are required"
    case RequirementsField => "Requirements are required"
    case SubmittedByField => "Your name is required"
  }

  /** The test each field is put to: a selection fails when it is empty, a
      text field when its trimmed value is empty. */
  predicate FieldFails(fd: FormData, f: Field) {
    match f
    case ProjectField => fd.project == ""
    case ComputationField => fd.computation == ""
    case PackageField => fd.package == ""
    case TypeField => fd.jobType == ""
    case TitleField => Trim(fd.title) == ""
    case ObjectivesField => Trim(fd.objectives) == ""
    case RequirementsField => Trim(fd.requirements) == ""
    case SubmittedByField => Trim(fd.submittedBy) == ""
  }

  lemma AllFieldsListed()
    ensures forall f: Field :: f in AllFields
  {
    forall f: Field ensures f in AllFields {
      if f.ProjectField? || f.ComputationField? || f.PackageField? || f.TypeField? {
      } else if f.TitleField? || f.ObjectivesField? || f.RequirementsField? {
      } else {
        assert f.SubmittedByField?;
      }
    }
  }

  /** The error map `validateForm` builds: one entry per failing field. */
  function ValidationErrors(fd: FormData): (errors: map<Field, string>)
    ensures forall f :: f in errors <==> FieldFails(fd, f)
    ensures forall f :: f in errors ==> errors[f] == ErrorMessage(f)
  {
    AllFieldsListed();
    map f | f in AllFields && FieldFails(fd, f) :: ErrorMessage(f)
  }

  /** What a complete form is: every selection made and every text field
      holding something other than white space. */
  predicate Complete(fd: FormData) {
    fd.project != "" && fd.computation != "" && fd.package != "" && fd.jobType != "" &&
    !IsBlank(fd.title) && !IsBlank(fd.objectives) &&
    !IsBlank(fd.requirements) && !IsBlank(fd.submittedBy)
  }

  /** `validateForm()` succeeds exactly on complete forms. */
  lemma ValidateMeansComplete(fd: FormData)
    ensures ValidationErrors(fd) == map[] <==> Complete(fd)
  {
    TrimEmptyIffBlank(fd.title);
    TrimEmptyIffBlank(fd.objectives);
    TrimEmptyIffBlank(fd.requirements);
    TrimEmptyIffBlank(fd.submittedBy);
    var errors := ValidationErrors(fd);
    if errors == map[] {
      forall f | f in AllFields ensures !FieldFails(fd, f) {
        assert f !in errors;
      }
      assert !FieldFails(fd, TitleField) && !FieldFails(fd, ObjectivesField);
      assert !FieldFails(fd, RequirementsField) && !FieldFails(fd, SubmittedByField);
    } else {
      var f :| f in errors;
      assert FieldFails(fd, f);
    }
  }

  /** A selection that is only white space is accepted; the same text in a
      text field is refused. */
  lemma SelectionsAreNotTrimmed()
    ensures !FieldFails(EmptyForm.(project := " "), ProjectField)
    ensures FieldFails(EmptyForm.(title := " "), TitleField)
  {
    TrimEmptyIffBlank(" ");
  }

  /** The job the form hands to `saveJob`: its fields, with status
      'submitted'. */
  function DraftOf(fd: FormData): JobDraft {
    JobDraft(Some(fd.project), fd.computation, fd.package, fd.jobType, fd.title,
             fd.objectives, fd.requirements, fd.submittedBy, Some(Submitted))
  }

  // ---------------------------------------------------------------------------
  // Stored selection hints and user-added projects

  const ProjectHintKey := "jobForm_selectedProject"
  const ComputationHintKey := "jobForm_selectedComputation"
  const PackageHintKey := "jobForm_selectedPackage"
  const TypeHintKey := "jobForm_selectedType"
  const HintKeys: set<string> := {ProjectHintKey, ComputationHintKey, PackageHintKey, TypeHintKey}
  const UserProjectsKey := "jobForm_userAddedProjects"

  /** `localStorage.getItem(key) || ''` in a browser, '' on the server. */
  function Hint(hasWindow: bool, local: Store, key: string): string {
    if !hasWindow then "" else GetText(local, key).GetOr("")
  }

  /** The user-added project list: `[]` when the key is absent or empty,
      `None` when its text does not parse as a list (`JSON.parse` throws). */
  function UserProjects(local: Store): Option<seq<Category>> {
    if UserProjectsKey !in local then Some([])
    else match local[UserProjectsKey]
      case ProjectArray(ps) => Some(ps)
      case Text(t) => if t == "" then Some([]) else None
      case JobArray(_) => None
  }

  // ---------------------------------------------------------------------------
  // New project ids

  /** The number a project id contributes to the next id: the integer parsed
      after a leading 'P', when there is one. */
  function PIdNumber(id: string): Option<int> {
    if StartsWith(id, "P") then ParseInt(id[1..]) else None
  }

  /** The positive number a project contributes to the next id, or 0. */
  function Contribution(c: Category): nat {
    match PIdNumber(c.id)
    case Some(n) => if n > 0 then n else 0
    case None => 0
  }

  /** The largest contribution among the projects, 0 for none. */
  function MaxPNumber(ps: seq<Category>): nat {
    MaxOf(ps, Contribution)
  }

  /** `MaxPNumber` is at least every project's contribution, and is 0 or the
      contribution of one of them. */
  lemma MaxPNumberMeaning(ps: seq<Category>)
    ensures forall i :: 0 <= i < |ps| ==> Contribution(ps[i]) <= MaxPNumber(ps)
    ensures MaxPNumber(ps) == 0 || exists i :: 0 <= i < |ps| && Contribution(ps[i]) == MaxPNumber(ps)
  {
    MaxOfMeaning(ps, Contribution);
  }

  /** The `forEach` of `handleSaveNewProject`: the largest positive number
      behind a 'P' among the ids, or 0. */
  method MaxProjectNumber(ps: seq<Category>) returns (m: nat)
    ensures m == MaxPNumber(ps)
  {
    m := 0;
    var i := 0;
    while i < |ps|
      invariant 0 <= i <= |ps|
      invariant m == MaxOf(ps[..i], Contribution)
    {
      assert ps[..i + 1][..i] == ps[..i];
      var num := PIdNumber(ps[i].id);
      if num.Some? && num.value > m {
        m := num.value;
      }
      i := i + 1;
    }
    assert ps[..|ps|] == ps;
  }

  /** The project `handleSaveNewProject` creates: id `P<m+1>` for the
      largest existing number m, the given name, no description or
      version. */
  function NewProject(existing: seq<Category>, name: string): Category {
    Category("P" + Decimal(MaxPNumber(existing) + 1), name, None, None)
  }

  /** A project with id `P<n>`, n positive, contributes n. */
  lemma ContributionOfPId(c: Category, n: nat)
    requires n >= 1 && c.id == "P" + Decimal(n)
    ensures Contribution(c) == n
  {
    ParseIntDecimal(n);
    assert c.id[..1] == "P" && c.id[1..] == Decimal(n);
  }

  /** The new project's id is used by no existing project, and is one more
      than the largest number behind a 'P'. */
  lemma NewProjectIdFresh(ps: seq<Category>, name: string)
    ensures NewProject(ps, name).id !in Ids(ps)
    ensures NewProject(ps, name).id == "P" + Decimal(MaxPNumber(ps) + 1)
    ensures NewProject(ps, name).name == name
  {
    var m := MaxPNumber(ps);
    var newId := "P" + Decimal(m + 1);
    forall i | 0 <= i < |ps| ensures ps[i].id != newId {
      MaxPNumberMeaning(ps);
      if ps[i].id == newId {
        ContributionOfPId(ps[i], m + 1);
      }
    }
  }

  // ---------------------------------------------------------------------------
  // Ordering of the merged project list

  /** The numeric part of a project id: `parseInt(id.replace('P', ''))`. */
  function ProjectNumber(id: string): Option<int> {
    ParseInt(RemoveFirst(id, 'P'))
  }

  /** The sort comparator: by number when both ids have one, otherwise by
      the ids' UTF-16 code units. */
  function CompareProjects(a: Category, b: Category): int {
    var na, nb := ProjectNumber(a.id), ProjectNumber(b.id);
    if na.Some? && nb.Some? then na.value - nb.value else CodePointCompare(a.id, b.id)
  }

  /** `[...staticProjects, ...userAddedProjects].sort(comparator)`. */
  function SortProjects(ps: seq<Category>): seq<Category> {
    SortBy(ps, CompareProjects)
  }

  predicate Numbered(c: Category) {
    ProjectNumber(c.id).Some?
  }

  function NumberOf(c: Category): int {
    ProjectNumber(c.id).GetOr(0)
  }

  /** The sort rearranges the list without losing or adding a project, and
      when every id has a numeric part the result is in ascending order of
      that number. */
  lemma SortProjectsMeaning(ps: seq<Category>)
    ensures multiset(SortProjects(ps)) == multiset(ps)
    ensures (forall i :: 0 <= i < |ps| ==> Numbered(ps[i])) ==>
      forall i, j :: 0 <= i < j < |ps| ==> NumberOf(SortProjects(ps)[i]) <= NumberOf(SortProjects(ps)[j])
  {
    SortByPermutes(ps, CompareProjects);
    var r := SortProjects(ps);
    assert |r| == |ps| by {
      assert |multiset(r)| == |multiset(ps)|;
    }
    if forall i :: 0 <= i < |ps| ==> Numbered(ps[i]) {
      assert OrdersByKey(CompareProjects, NumberOf, Numbered) by {
        forall a, b | Numbered(a) && Numbered(b)
          ensures CompareProjects(a, b) <= 0 <==> NumberOf(a) <= NumberOf(b)
        {
          assert CompareProjects(a, b) == NumberOf(a) - NumberOf(b);
        }
      }
      SortByOrders(ps, CompareProjects, NumberOf, Numbered);
    }
  }

  /** The list the form offers: static projects then user projects, sorted;
      `None` when the stored user list does not parse. */
  function MergedProjects(hasWindow: bool, local: Store): Option<seq<Category>> {
    var user := if hasWindow then UserProjects(local) else Some([]);
    match user
    case None => None
    case Some(us) => Some(SortProjects(GetProjectCategories() + us))
  }

  // ---------------------------------------------------------------------------
  // The form

  class JobSubmissionForm {
    const browser: Browser
    var formData: FormData
    var selectedProject: string
    var selectedComputation: string
    var selectedPackage: string
    var selectedType: string
    var errors: map<Field, string>
    var allProjects: seq<Category>
    var newProjectNameInput: string
    var isAddingProject: bool
    var projectListVersion: nat

    /** Mounting: the four selections come from the stored hints, the other
        fields start empty, and the project list is merged and sorted. */
    constructor (b: Browser)
      ensures browser == b
      ensures selectedProject == Hint(b.hasWindow, b.local, ProjectHintKey)
      ensures selectedComputation == Hint(b.hasWindow, b.local, ComputationHintKey)
      ensures selectedPackage == Hint(b.hasWindow, b.local, PackageHintKey)
      ensures selectedType == Hint(b.hasWindow, b.local, TypeHintKey)
      ensures formData == EmptyForm.(project := selectedProject, computation := selectedComputation,
                                     package := selectedPackage, jobType := selectedType)
      ensures errors == map[] && newProjectNameInput == "" && !isAddingProject && projectListVersion == 0
      ensures allProjects == MergedProjects(b.hasWindow, b.local).GetOr([])
    {
      browser := b;
      selectedProject := Hint(b.hasWindow, b.local, ProjectHintKey);
      selectedComputation := Hint(b.hasWindow, b.local, ComputationHintKey);
      selectedPackage := Hint(b.hasWindow, b.local, PackageHintKey);
      selectedType := Hint(b.hasWindow, b.local, TypeHintKey);
      formData := FormData(selectedProject, selectedComputation, selectedPackage, selectedType, "", "", "", "");
      errors := map[];
      allProjects := MergedProjects(b.hasWindow, b.local).GetOr([]);
      newProjectNameInput := "";
      isAddingProject := false;
      projectListVersion := 0;
    }

    /** The project-list effect, run after the list version changes; when the
        stored list does not parse the effect throws and nothing changes. */
    method RefreshProjects()
      modifies this`allProjects
      ensures allProjects == MergedProjects(browser.hasWindow, browser.local).GetOr(old(allProjects))
      ensures formData == old(formData) && selectedProject == old(selectedProject) && errors == old(errors)
      ensures projectListVersion == old(projectListVersion)
    {
      var merged := MergedProjects(browser.hasWindow, browser.local);
      if merged.Some? {
        allProjects := merged.value;
      }
    }

    /** `handleProjectSelect` and its three siblings: record the selection in
        the form and drop that field's error. */
    method HandleSelect(f: Field, value: string)
      requires IsSelection(f)
      modifies this`formData, this`errors, this`selectedProject, this`selectedComputation,
               this`selectedPackage, this`selectedType
      ensures errors == old(errors) - {f}
      ensures f == ProjectField ==> selectedProject == value && formData == old(formData).(project := value)
      ensures f == ComputationField ==> selectedComputation == value && formData == old(formData).(computation := value)
      ensures f == PackageField ==> selectedPackage == value && formData == old(formData).(package := value)
      ensures f == TypeField ==> selectedType == value && formData == old(formData).(jobType := value)
      ensures f != ProjectField ==> selectedProject == old(selectedProject)
      ensures f != ComputationField ==> selectedComputation == old(selectedComputation)
      ensures f != PackageField ==> selectedPackage == old(selectedPackage)
      ensures f != TypeField ==> selectedType == old(selectedType)
      ensures allProjects == old(allProjects) && projectListVersion == old(projectListVersion)
    {
      match f {
        case ProjectField =>
          selectedProject := value;
          formData := formData.(project := value);
        case ComputationField =>
          selectedComputation := value;
          formData := formData.(computation := value);
        case PackageField =>
          selectedPackage := value;
          formData := formData.(package := value);
        case TypeField =>
          selectedType := value;
          formData := formData.(jobType := value);
      }
      errors := errors - {f};
    }

    /** `handleSubmit`: when the form is incomplete only the errors change and
        nothing is saved; otherwise the job is saved with status 'submitted',
        every field and error is cleared and the four hints are removed. */
    method HandleSubmit(store: JobManager, id: string, now: string) returns (submitted: Option<Job>)
      requires store.browser == browser
      modifies this`formData, this`errors, this`selectedProject, this`selectedComputation,
               this`selectedPackage, this`selectedType, store, browser
      ensures errors == (if submitted.None? then ValidationErrors(old(formData)) else map[])
      ensures submitted.Some? <==> Complete(old(formData))
      ensures submitted.None? ==>
        store.jobs == old(store.jobs) && store.Snapshot() == old(store.Snapshot()) &&
        formData == old(formData) && selectedProject == old(selectedProject) &&
        selectedComputation == old(selectedComputation) && selectedPackage == old(selectedPackage) &&
        selectedType == old(selectedType)
      ensures submitted.Some? ==>
        submitted.value == NewJob(old(store.jobs), DraftOf(old(formData)), id, now) &&
        submitted.value.status == Submitted &&
        store.jobs == old(store.jobs) + [submitted.value] &&
        formData == EmptyForm &&
        selectedProject == "" && selectedComputation == "" && selectedPackage == "" && selectedType == "" &&
        var saved := SaveJobs(old(store.Snapshot()), store.jobs);
        store.memoryStorage == saved.memory && browser.session == saved.session &&
        browser.local == (if browser.hasWindow then saved.local - HintKeys else saved.local)
      ensures allProjects == old(allProjects)
    {
      ValidateMeansComplete(formData);
      errors := ValidationErrors(formData);
      if errors != map[] {
        return None;
      }
      var job := store.SaveJob(DraftOf(formData), id, now);
      submitted := Some(job);
      ClearForm();
    }

    /** The reset after a successful submission: every field, selection and
        error cleared and the four hints removed from storage. */
    method ClearForm()
      modifies this`formData, this`selectedProject, this`selectedComputation, this`selectedPackage,
               this`selectedType, this`errors, browser`local
      ensures formData == EmptyForm && errors == map[]
      ensures selectedProject == "" && selectedComputation == "" && selectedPackage == "" && selectedType == ""
      ensures browser.local == if browser.hasWindow then old(browser.local) - HintKeys else old(browser.local)
    {
      formData := EmptyForm;
      selectedProject := "";
      selectedComputation := "";
      selectedPackage := "";
      selectedType := "";
      errors := map[];
      if browser.hasWindow {
        browser.local := browser.local - HintKeys;
      }
    }

    /** `handleSaveNewProject`: a name that trims to nothing changes nothing;
        otherwise the new project, numbered after every existing `P` id, is
        appended to the stored user list, selected, and the project error
        dropped. */
    method HandleSaveNewProject() returns (added: Option<Category>)
      requires browser.hasWindow
      modifies this`newProjectNameInput, this`isAddingProject, this`selectedProject, this`formData,
               this`errors, this`projectListVersion, this`allProjects, browser
      ensures added.None? <==> Trim(old(newProjectNameInput)) == "" || UserProjects(old(browser.local)).None?
      ensures added.None? ==>
        browser.local == old(browser.local) && selectedProject == old(selectedProject) &&
        formData == old(formData) && errors == old(errors) &&
        allProjects == old(allProjects) && projectListVersion == old(projectListVersion) &&
        newProjectNameInput == old(newProjectNameInput) && isAddingProject == old(isAddingProject)
      ensures added.Some? ==>
        var user := UserProjects(old(browser.local)).value;
        added.value == NewProject(GetProjectCategories() + user, Trim(old(newProjectNameInput))) &&
        ProjectAdded(old(browser.local), old(formData), old(errors), old(projectListVersion), user, added.value)
      ensures browser.session == old(browser.session)
    {
      var name := Trim(newProjectNameInput);
      if name == "" {
        return None;
      }
      var user := UserProjects(browser.local);
      if user.None? {
        return None;
      }
      var project := AddUserProject(user.value, name);
      added := Some(project);
    }

    /** The state after `project` is appended to the stored user list `user`
        and selected. */
    ghost predicate ProjectAdded(local0: Store, formData0: FormData, errors0: map<Field, string>,
                                 version0: nat, user: seq<Category>, project: Category)
      reads this, browser
    {
      var updated := user + [project];
      browser.local == local0[UserProjectsKey := ProjectArray(updated)] &&
      selectedProject == project.id && formData == formData0.(project := project.id) &&
      errors == errors0 - {ProjectField} &&
      newProjectNameInput == "" && !isAddingProject &&
      projectListVersion == version0 + 1 &&
      allProjects == SortProjects(GetProjectCategories() + updated)
    }

    /** The second half of `handleSaveNewProject`, once the name and the
        stored list are known good. */
    method AddUserProject(user: seq<Category>, name: string) returns (project: Category)
      modifies this`newProjectNameInput, this`isAddingProject, this`selectedProject, this`formData,
               this`errors, this`projectListVersion, this`allProjects, browser
      ensures project == NewProject(GetProjectCategories() + user, name)
      ensures ProjectAdded(old(browser.local), old(formData), old(errors), old(projectListVersion), user, project)
      ensures browser.session == old(browser.session)
    {
      var existing := GetProjectCategories() + user;
      var m := MaxProjectNumber(existing);
      project := Category("P" + Decimal(m + 1), name, None, None);
      StoreUserProjects(user + [project]);
      SelectNewProject(project.id);
    }

    /** Write the user list back, bump the list version and rebuild the
        merged list from it. */
    method StoreUserProjects(updated: seq<Category>)
      modifies this`projectListVersion, this`allProjects, browser`local
      ensures browser.local == old(browser.local)[UserProjectsKey := ProjectArray(updated)]
      ensures projectListVersion == old(projectListVersion) + 1
      ensures allProjects == SortProjects(GetProjectCategories() + updated)
    {
      browser.local := browser.local[UserProjectsKey := ProjectArray(updated)];
      projectListVersion := projectListVersion + 1;
      allProjects := SortProjects(GetProjectCategories() + updated);
    }

    /** Close the name input and select the project just added. */
    method SelectNewProject(id: string)
      modifies this`newProjectNameInput, this`isAddingProject, this`selectedProject, this`formData, this`errors
      ensures newProjectNameInput == "" && !isAddingProject
      ensures selectedProject == id && formData == old(formData).(project := id)
      ensures errors == old(errors) - {ProjectField}
    {
      newProjectNameInput := "";
      isAddingProject := false;
      selectedProject := id;
      formData := formData.(project := id);
      errors := errors - {ProjectField};
    }

    /** `handleDeleteUserProject(id)`: only when confirmed (and the stored list
        parses), every user project with that id is removed, the others keep
        their order, and the selection is cleared only if it was that id. */
    method HandleDeleteUserProject(id: string, confirmed: bool)
      requires browser.hasWindow
      modifies this`projectListVersion, this`allProjects, this`selectedProject, this`formData, browser
      ensures !confirmed || UserProjects(old(browser.local)).None? ==>
        browser.local == old(browser.local) && selectedProject == old(selectedProject) &&
        formData == old(formData) && projectListVersion == old(projectListVersion) &&
        allProjects == old(allProjects)
      ensures confirmed && UserProjects(old(browser.local)).Some? ==>
        var kept := Filter(UserProjects(old(browser.local)).value, (p: Category) => p.id != id);
        browser.local == old(browser.local)[UserProjectsKey := ProjectArray(kept)] &&
        id !in Ids(kept) &&
        projectListVersion == old(projectListVersion) + 1 &&
        allProjects == SortProjects(GetProjectCategories() + kept) &&
        (old(selectedProject) == id ==> selectedProject == "" && formData == old(formData).(project := "")) &&
        (old(selectedProject) != id ==> selectedProject == old(selectedProject) && formData == old(formData))
      ensures browser.session == old(browser.session) && errors == old(errors)
    {
      if !confirmed {
        return;
      }
      var user := UserProjects(browser.local);
      if user.None? {
        return;
      }
      var kept := Filter(user.value, (p: Category) => p.id != id);
      browser.local := browser.local[UserProjectsKey := ProjectArray(kept)];
      projectListVersion := projectListVersion + 1;
      allProjects := SortProjects(GetProjectCategories() + kept);
      if selectedProject == id {
        selectedProject := "";
        formData := formData.(project := "");
      }
    }
  }
}
