/** The HTTP handlers of `src/app/api/jobs/route.ts`: GET answers with the
    store's list, POST checks that the eight form fields are present and
    non-empty and creates a submitted job through the store. Parsing the
    request body is taken as given: the body arrives as a value, or as
    `Unparseable` when `request.json()` fails. */
module JobsRoute {
  import opened Wrappers
  import opened JsText
  import opened JobTypes
  import opened Storage
  import opened JobManager
  import opened SubmissionForm

  /** The fields of a POST body the route reads, `None` for a field that is
      absent or null, together with the bookkeeping fields a client may send
      and the store overwrites. */
  datatype PostBody = PostBody(
    project: Option<string>,
    computation: Option<string>,
    package: Option<string>,
    jobType: Option<string>,
    title: Option<string>,
    objectives: Option<string>,
    requirements: Option<string>,
    submittedBy: Option<string>,
    id: Option<string>,
    jobNumber: Option<string>,
    submittedDate: Option<string>,
    lastUpdated: Option<string>)

  datatype Request = Unparseable | Json(body: PostBody)

  /** The responses: 200 with the list, 201 with the new job, 400 and 500
      with an error message. */
  datatype Response =
    | Ok(jobs: seq<Job>)
    | Created(job: Job)
    | BadRequest(error: string)
    | ServerError(error: string)

  const MissingFieldsError := "Missing required fields. Ensure project, computation, package, type, title, objectives, requirements, and submittedBy are provided."
  const CreateError := "Failed to create job"

  /** A string field is truthy when it is present and not empty. */
  predicate Truthy(v: Option<string>) {
    v.Some? && v.value != ""
  }

  /** The POST check: every one of the eight fields is truthy. */
  predicate HasRequiredFields(b: PostBody) {
    Truthy(b.project) && Truthy(b.computation) && Truthy(b.package) && Truthy(b.jobType) &&
    Truthy(b.title) && Truthy(b.objectives) && Truthy(b.requirements) && Truthy(b.submittedBy)
  }

  /** `{ ...jobData, status: 'submitted' }` as `saveJob` receives it. */
  function DraftOfBody(b: PostBody): (d: JobDraft)
    requires HasRequiredFields(b)
    ensures d.project == b.project && d.status == Some(Submitted)
    ensures d.title == b.title.value && d.submittedBy == b.submittedBy.value
  {
    JobDraft(b.project, b.computation.value, b.package.value, b.jobType.value, b.title.value,
             b.objectives.value, b.requirements.value, b.submittedBy.value, Some(Submitted))
  }

  /** The job a passing POST creates is submitted, numbered under its
      project, and stamped with the store's id and time whatever id, number
      or dates the client sent. */
  lemma PostCreatesSubmittedJob(jobs: seq<Job>, b: PostBody, id: string, now: string)
    requires HasRequiredFields(b)
    ensures var job := NewJob(jobs, DraftOfBody(b), id, now);
      job.status == Submitted && job.id == id && job.submittedDate == now && job.lastUpdated == now &&
      job.jobNumber == GenerateJobNumber(jobs, b.project.value) &&
      job.title == b.title.value && job.project == b.project
  {
  }

  /** The draft taken from a body does not carry the client's bookkeeping
      fields, so bodies that differ only in those create the same job. The
      spread-then-overwrite in `saveJob` is thus settled when the draft is
      built. */
  lemma ClientBookkeepingIgnored(jobs: seq<Job>, b: PostBody, id: string, now: string,
                                 clientId: Option<string>, clientNumber: Option<string>,
                                 clientSubmitted: Option<string>, clientUpdated: Option<string>)
    requires HasRequiredFields(b)
    ensures var other := b.(id := clientId, jobNumber := clientNumber,
                            submittedDate := clientSubmitted, lastUpdated := clientUpdated);
      HasRequiredFields(other) &&
      NewJob(jobs, DraftOfBody(other), id, now) == NewJob(jobs, DraftOfBody(b), id, now)
  {
  }

  /** The body a form would send. */
  function BodyOf(fd: FormData): PostBody {
    PostBody(Some(fd.project), Some(fd.computation), Some(fd.package), Some(fd.jobType),
             Some(fd.title), Some(fd.objectives), Some(fd.requirements), Some(fd.submittedBy),
             None, None, None, None)
  }

  /** Every form the dialog accepts also passes the route's check, and both
      hand `saveJob` the same draft. */
  lemma CompleteFormPassesRoute(fd: FormData)
    requires Complete(fd)
    ensures HasRequiredFields(BodyOf(fd))
    ensures DraftOfBody(BodyOf(fd)) == DraftOf(fd)
  {
    assert IsBlank("");
  }

  /** The converse fails: text fields of white space pass the route's check
      but not the form's. */
  lemma WhitespacePassesRouteOnly()
    ensures var fd := FormData("P1", "dft", "abinit", "single_point", " ", " ", " ", " ");
      HasRequiredFields(BodyOf(fd)) && !Complete(fd)
  {
    assert IsBlank(" ") by {
      assert IsWhitespace(" "[0]);
    }
  }

  /** `GET`: the store's list as it is. */
  method Get(store: JobManager) returns (response: Response)
    ensures response == Ok(store.jobs)
  {
    var jobs := store.GetJobs();
    response := Ok(jobs);
  }

  /** `POST`: a body that cannot be parsed gives 500 and a body missing a
      field gives 400, both without touching the store; otherwise one job is
      created with status 'submitted' and returned with 201. */
  method Post(store: JobManager, request: Request, id: string, now: string) returns (response: Response)
    modifies store, store.browser
    ensures request.Unparseable? ==>
      response == ServerError(CreateError) &&
      store.jobs == old(store.jobs) && store.Snapshot() == old(store.Snapshot())
    ensures request.Json? && !HasRequiredFields(request.body) ==>
      response == BadRequest(MissingFieldsError) &&
      store.jobs == old(store.jobs) && store.Snapshot() == old(store.Snapshot())
    ensures request.Json? && HasRequiredFields(request.body) ==>
      response == Created(NewJob(old(store.jobs), DraftOfBody(request.body), id, now)) &&
      store.jobs == old(store.jobs) + [response.job] &&
      store.Snapshot() == SaveJobs(old(store.Snapshot()), store.jobs)
  {
    if request.Unparseable? {
      return ServerError(CreateError);
    }
    var jobData := request.body;
    if !Truthy(jobData.project) || !Truthy(jobData.computation) || !Truthy(jobData.package) ||
       !Truthy(jobData.jobType) || !Truthy(jobData.title) || !Truthy(jobData.objectives) ||
       !Truthy(jobData.requirements) || !Truthy(jobData.submittedBy) {
      return BadRequest(MissingFieldsError);
    }
    var newJob := store.SaveJob(DraftOfBody(jobData), id, now);
    response := Created(newJob);
  }
}
