/** The record types of `src/types/job.ts`: the four-valued status, the job
    record, the fields a caller supplies when creating a job, and the partial
    field update. The TypeScript field `type` is called `jobType` here because
    `type` is a Dafny keyword. */
module JobTypes {
  import opened Wrappers

  datatype Status = Draft | Submitted | InProgress | Completed

  /** The string each status is stored and compared as. */
  function StatusName(s: Status): (r: string)
    ensures r in {"draft", "submitted", "in-progress", "completed"}
  {
    match s
    case Draft => "draft"
    case Submitted => "submitted"
    case InProgress => "in-progress"
    case Completed => "completed"
  }

  /** `JobSubmission`. */
  datatype Job = Job(
    id: string,
    jobNumber: string,
    project: Option<string>,
    computation: string,
    package: string,
    jobType: string,
    title: string,
    objectives: string,
    requirements: string,
    submittedBy: string,
    status: Status,
    submittedDate: string,
    lastUpdated: string)

  /** `Omit<JobSubmission, 'id' | 'jobNumber' | 'submittedDate' | 'lastUpdated'>`
      as `saveJob` receives it; the status may be left out. */
  datatype JobDraft = JobDraft(
    project: Option<string>,
    computation: string,
    package: string,
    jobType: string,
    title: string,
    objectives: string,
    requirements: string,
    submittedBy: string,
    status: Option<Status>)

  /** `Partial<Omit<JobSubmission, 'id' | 'jobNumber' | 'submittedAt'>>`: every
      field but the id and the job number may be given a new value. */
  datatype JobUpdates = JobUpdates(
    project: Option<string>,
    computation: Option<string>,
    package: Option<string>,
    jobType: Option<string>,
    title: Option<string>,
    objectives: Option<string>,
    requirements: Option<string>,
    submittedBy: Option<string>,
    status: Option<Status>,
    submittedDate: Option<string>,
    lastUpdated: Option<string>)

  /** `{ ...job, ...updates }`. */
  function ApplyUpdates(job: Job, u: JobUpdates): Job {
    job.(
      project := if u.project.Some? then u.project else job.project,
      computation := u.computation.GetOr(job.computation),
      package := u.package.GetOr(job.package),
      jobType := u.jobType.GetOr(job.jobType),
      title := u.title.GetOr(job.title),
      objectives := u.objectives.GetOr(job.objectives),
      requirements := u.requirements.GetOr(job.requirements),
      submittedBy := u.submittedBy.GetOr(job.submittedBy),
      status := u.status.GetOr(job.status),
      submittedDate := u.submittedDate.GetOr(job.submittedDate),
      lastUpdated := u.lastUpdated.GetOr(job.lastUpdated))
  }

  /** An update never changes the id or the job number, and leaves every field
      it does not name as it was. */
  lemma UpdateKeepsIdentity(job: Job, u: JobUpdates)
    ensures ApplyUpdates(job, u).id == job.id
    ensures ApplyUpdates(job, u).jobNumber == job.jobNumber
    ensures u.lastUpdated.None? ==> ApplyUpdates(job, u).lastUpdated == job.lastUpdated
    ensures u.status.None? ==> ApplyUpdates(job, u).status == job.status
    ensures u == JobUpdates(None, None, None, None, None, None, None, None, None, None, None)
            ==> ApplyUpdates(job, u) == job
  {
  }
}
