/** The job store of `src/utils/jobManager.ts`: the module-level array `jobs`,
    the in-memory backend array `memoryStorage`, creation with a per-project
    job number, lookup, status and field updates, and deletion. Every
    successful mutation re-persists the whole array through the adapter of
    module Storage. Ids (`uuidv4()`) and the creation time (`new Date()`) are
    parameters. */
module JobManager {
  import opened Wrappers
  import opened JsText
  import opened Seqs
  import opened JobTypes
  import opened Storage

  // ---------------------------------------------------------------------------
  // Job numbers

  /** `jobData.project || 'Noproject'`. */
  function ProjectKey(project: Option<string>): (key: string)
    ensures key != ""
    ensures project.Some? && project.value != "" ==> key == project.value
  {
    if project.Some? && project.value != "" then project.value else "Noproject"
  }

  /** The test `job.jobNumber.startsWith(prefix)`. */
  function NumberedUnder(prefix: string): Job -> bool {
    (j: Job) => StartsWith(j.jobNumber, prefix)
  }

  /** How many jobs have a number starting with the prefix, counted from the
      end of the list. */
  function PrefixCount(jobs: seq<Job>, prefix: string): nat
    decreases |jobs|
  {
    if jobs == [] then 0
    else PrefixCount(jobs[..|jobs| - 1], prefix) +
         (if StartsWith(jobs[|jobs| - 1].jobNumber, prefix) then 1 else 0)
  }

  /** The count is the length of `jobs.filter(job => job.jobNumber.startsWith(prefix))`. */
  lemma {:induction false} PrefixCountIsFilterLength(jobs: seq<Job>, prefix: string)
    ensures PrefixCount(jobs, prefix) == |Filter(jobs, NumberedUnder(prefix))|
  {
    if jobs != [] {
      var init, last := jobs[..|jobs| - 1], jobs[|jobs| - 1];
      PrefixCountIsFilterLength(init, prefix);
      assert jobs == init + [last];
      FilterConcat(init, [last], NumberedUnder(prefix));
      assert Filter([last], NumberedUnder(prefix)) ==
        (if StartsWith(last.jobNumber, prefix) then [last] else []);
    }
  }

  /** The `n`-th number under a prefix: the prefix, then `n` in decimal
      padded to three digits. */
  function NumberUnder(prefix: string, n: nat): string {
    prefix + PadStart3(Decimal(n))
  }

  /** `generateJobNumber(project)` over the current job list. */
  function GenerateJobNumber(jobs: seq<Job>, project: string): string {
    var prefix := project + "-";
    NumberUnder(prefix, PrefixCount(jobs, prefix) + 1)
  }

  /** A job number is the project, a dash, and at least three digits denoting
      one more than the number of jobs already numbered under `project-`. */
  lemma JobNumberMeaning(jobs: seq<Job>, project: string)
    ensures var r, prefix := GenerateJobNumber(jobs, project), project + "-";
      StartsWith(r, prefix) &&
      var suffix := r[|prefix|..];
      IsDigits(suffix) && |suffix| >= 3 &&
      DigitsValue(suffix) == PrefixCount(jobs, prefix) + 1
  {
    var prefix := project + "-";
    var r := GenerateJobNumber(jobs, project);
    PaddedDecimal(PrefixCount(jobs, prefix) + 1);
    assert r[..|prefix|] == prefix;
    assert r[|prefix|..] == PadStart3(Decimal(PrefixCount(jobs, prefix) + 1));
  }

  /** The record `saveJob(jobData)` creates, given the id and time it is
      stamped with. */
  function NewJob(jobs: seq<Job>, d: JobDraft, id: string, now: string): Job {
    Job(
      id := id,
      jobNumber := GenerateJobNumber(jobs, ProjectKey(d.project)),
      project := d.project,
      computation := d.computation,
      package := d.package,
      jobType := d.jobType,
      title := d.title,
      objectives := d.objectives,
      requirements := d.requirements,
      submittedBy := d.submittedBy,
      status := d.status.GetOr(Draft),
      submittedDate := now,
      lastUpdated := now)
  }

  // ---------------------------------------------------------------------------
  // Lookup

  /** `jobs.findIndex(job => job.id === id)`. */
  function FindJobIndex(jobs: seq<Job>, id: string): (r: Option<nat>)
    ensures r.Some? ==> r.value < |jobs| && jobs[r.value].id == id
    ensures r.Some? ==> forall k :: 0 <= k < r.value ==> jobs[k].id != id
    ensures r.None? <==> forall k :: 0 <= k < |jobs| ==> jobs[k].id != id
  {
    FirstIndex(jobs, (j: Job) => j.id == id)
  }

  /** `getJobById(id)`: the first job with that id. */
  function GetJobById(jobs: seq<Job>, id: string): (r: Option<Job>)
    ensures r.Some? ==> r.value in jobs && r.value.id == id
    ensures r.None? <==> forall j :: j in jobs ==> j.id != id
    ensures r.Some? ==> exists i :: 0 <= i < |jobs| && jobs[i] == r.value &&
                                    forall k :: 0 <= k < i ==> jobs[k].id != id
  {
    match FindJobIndex(jobs, id)
    case None => None
    case Some(i) => Some(jobs[i])
  }

  /** `getJobsByCategory(category)`: the jobs of that computation kind, in
      order. */
  function GetJobsByCategory(jobs: seq<Job>, category: string): (r: seq<Job>)
    ensures forall j :: j in r <==> j in jobs && j.computation == category
    ensures forall i :: 0 <= i < |r| ==> r[i].computation == category
  {
    Filter(jobs, (j: Job) => j.computation == category)
  }

  /** The job list after `deleteJob(id)`: the first job with that id removed,
      or the list unchanged when there is none. */
  function JobsAfterDelete(jobs: seq<Job>, id: string): seq<Job> {
    match FindJobIndex(jobs, id)
    case None => jobs
    case Some(i) => RemoveAt(jobs, i)
  }

  // ---------------------------------------------------------------------------
  // The store

  class JobManager {
    const browser: Browser
    var jobs: seq<Job>
    var memoryStorage: seq<Job>

    /** The adapter's view of the world. */
    function Snapshot(): Backend
      reads this, browser
    {
      Backend(browser.hasWindow, browser.local, browser.session, memoryStorage)
    }

    /** Module initialisation: the in-memory backend starts empty and, in a
        browser, the job list is loaded from the active backend. */
    constructor Init(b: Browser)
      ensures browser == b && memoryStorage == []
      ensures jobs == if b.hasWindow then LoadJobs(Backend(true, b.local, b.session, [])) else []
    {
      browser := b;
      memoryStorage := [];
      jobs := [];
      new;
      if b.hasWindow {
        jobs := LoadJobsFromStorage();
      }
    }

    /** `loadJobsFromStorage()`. */
    method LoadJobsFromStorage() returns (r: seq<Job>)
      ensures r == LoadJobs(Snapshot())
    {
      if !browser.hasWindow {
        return [];
      }
      var storageType := StorageType(browser.hasWindow, browser.local);
      if storageType == "memory" {
        return memoryStorage;
      }
      var storage := if storageType == "sessionStorage" then browser.session else browser.local;
      if JobsKey in storage && storage[JobsKey].JobArray? {
        r := storage[JobsKey].jobs;
      } else {
        r := [];
      }
    }

    /** `saveJobsToStorage(list)`. */
    method SaveJobsToStorage(list: seq<Job>)
      modifies this, browser
      ensures jobs == old(jobs)
      ensures Snapshot() == SaveJobs(old(Snapshot()), list)
    {
      if !browser.hasWindow {
        return;
      }
      var storageType := StorageType(browser.hasWindow, browser.local);
      if storageType == "memory" {
        memoryStorage := list;
        return;
      }
      if storageType == "sessionStorage" {
        browser.session := browser.session[JobsKey := JobArray(list)];
      } else {
        browser.local := browser.local[JobsKey := JobArray(list)];
      }
      var autoBackup := AdapterAutoBackup(browser.local);
      if autoBackup && storageType != "localStorage" {
        browser.local := browser.local[BackupKey := JobArray(list)];
      }
    }

    /** `saveJob(jobData)`: appends one new record at the end, leaving the
        earlier ones as they were, and persists the whole list. */
    method SaveJob(d: JobDraft, id: string, now: string) returns (job: Job)
      modifies this, browser
      ensures job == NewJob(old(jobs), d, id, now)
      ensures jobs == old(jobs) + [job]
      ensures job.id == id && job.submittedDate == now && job.lastUpdated == now
      ensures job.status == d.status.GetOr(Draft)
      ensures job.jobNumber == GenerateJobNumber(old(jobs), ProjectKey(d.project))
      ensures Snapshot() == SaveJobs(old(Snapshot()), jobs)
    {
      var number := GenerateJobNumber(jobs, ProjectKey(d.project));
      job := Job(id, number, d.project, d.computation, d.package, d.jobType, d.title,
                 d.objectives, d.requirements, d.submittedBy, d.status.GetOr(Draft), now, now);
      jobs := jobs + [job];
      SaveJobsToStorage(jobs);
    }

    /** `loadSampleJobs()`: re-persists the current list unchanged. */
    method LoadSampleJobs()
      modifies this, browser
      ensures jobs == old(jobs)
      ensures Snapshot() == SaveJobs(old(Snapshot()), jobs)
    {
      SaveJobsToStorage(jobs);
    }

    /** `getJobs()`: a copy of the current list. */
    method GetJobs() returns (r: seq<Job>)
      ensures r == jobs
    {
      r := jobs;
    }

    /** `updateJobStatus(id, status)`: `None` and no change when no job has
        the id; otherwise only the first job with the id gets the new status
        (its `lastUpdated` is not refreshed) and the list is persisted. */
    method UpdateJobStatus(id: string, status: Status) returns (r: Option<Job>)
      modifies this, browser
      ensures FindJobIndex(old(jobs), id).None? ==>
        r.None? && jobs == old(jobs) && Snapshot() == old(Snapshot())
      ensures FindJobIndex(old(jobs), id).Some? ==>
        var i := FindJobIndex(old(jobs), id).value;
        |jobs| == |old(jobs)| &&
        jobs[i] == old(jobs)[i].(status := status) &&
        (forall k :: 0 <= k < |jobs| && k != i ==> jobs[k] == old(jobs)[k]) &&
        r == Some(jobs[i]) &&
        Snapshot() == SaveJobs(old(Snapshot()), jobs)
    {
      var index := FindJobIndex(jobs, id);
      if index.None? {
        return None;
      }
      var i := index.value;
      jobs := jobs[i := jobs[i].(status := status)];
      SaveJobsToStorage(jobs);
      r := Some(jobs[i]);
    }

    /** `updateJob(id, updates)`: as `UpdateJobStatus`, with the named fields
        of `updates` replaced in the first job with the id. */
    method UpdateJob(id: string, updates: JobUpdates) returns (r: Option<Job>)
      modifies this, browser
      ensures FindJobIndex(old(jobs), id).None? ==>
        r.None? && jobs == old(jobs) && Snapshot() == old(Snapshot())
      ensures FindJobIndex(old(jobs), id).Some? ==>
        var i := FindJobIndex(old(jobs), id).value;
        |jobs| == |old(jobs)| &&
        jobs[i] == ApplyUpdates(old(jobs)[i], updates) &&
        jobs[i].id == id && jobs[i].jobNumber == old(jobs)[i].jobNumber &&
        (forall k :: 0 <= k < |jobs| && k != i ==> jobs[k] == old(jobs)[k]) &&
        r == Some(jobs[i]) &&
        Snapshot() == SaveJobs(old(Snapshot()), jobs)
    {
      var index := FindJobIndex(jobs, id);
      if index.None? {
        return None;
      }
      var i := index.value;
      jobs := jobs[i := ApplyUpdates(jobs[i], updates)];
      SaveJobsToStorage(jobs);
      r := Some(jobs[i]);
    }

    /** `deleteJob(id)`: false and no change when no job has the id;
        otherwise the first job with the id is removed, the others keep their
        order, the list is persisted and the result is true. */
    method DeleteJob(id: string) returns (deleted: bool)
      modifies this, browser
      ensures deleted <==> FindJobIndex(old(jobs), id).Some?
      ensures jobs == JobsAfterDelete(old(jobs), id)
      ensures !deleted ==> Snapshot() == old(Snapshot())
      ensures deleted ==> |jobs| == |old(jobs)| - 1 && Snapshot() == SaveJobs(old(Snapshot()), jobs)
    {
      var index := FindJobIndex(jobs, id);
      if index.None? {
        return false;
      }
      jobs := jobs[..index.value] + jobs[index.value + 1..];
      SaveJobsToStorage(jobs);
      deleted := true;
    }
  }

  // ---------------------------------------------------------------------------
  // Numbering across several calls

  /** One `saveJob` call: what is submitted, and the id and time it gets. */
  datatype SaveCall = SaveCall(draft: JobDraft, id: string, now: string)

  /** The job list after the given `saveJob` calls, in order. */
  function AfterSaves(jobs: seq<Job>, calls: seq<SaveCall>): seq<Job>
    decreases |calls|
  {
    if calls == [] then jobs
    else
      var before := AfterSaves(jobs, calls[..|calls| - 1]);
      var c := calls[|calls| - 1];
      before + [NewJob(before, c.draft, c.id, c.now)]
  }

  /** A new job under `project` is itself numbered under `project-`, so it
      adds one to that count. */
  lemma NewJobCounts(jobs: seq<Job>, d: JobDraft, id: string, now: string)
    ensures var p := ProjectKey(d.project) + "-";
      PrefixCount(jobs + [NewJob(jobs, d, id, now)], p) == PrefixCount(jobs, p) + 1
  {
    var p := ProjectKey(d.project) + "-";
    var job := NewJob(jobs, d, id, now);
    JobNumberMeaning(jobs, ProjectKey(d.project));
    assert (jobs + [job])[..|jobs|] == jobs;
  }

  /** `generateJobNumber` numbers after the count under `project-`. */
  lemma NumberFromCount(jobs: seq<Job>, project: string)
    ensures GenerateJobNumber(jobs, project) == NumberUnder(project + "-", PrefixCount(jobs, project + "-") + 1)
  {
  }

  /** One more save appends one job, numbered after those already under
      its prefix. */
  lemma SaveOneMore(jobs: seq<Job>, p: string, calls: seq<SaveCall>)
    requires calls != [] && calls[|calls| - 1].draft.project == Some(p) && p != ""
    ensures var before, after := AfterSaves(jobs, calls[..|calls| - 1]), AfterSaves(jobs, calls);
      |after| == |before| + 1 &&
      (forall k :: 0 <= k < |before| ==> after[k] == before[k]) &&
      after[|before|].jobNumber == GenerateJobNumber(before, p) &&
      PrefixCount(after, p + "-") == PrefixCount(before, p + "-") + 1
  {
    var c := calls[|calls| - 1];
    var before := AfterSaves(jobs, calls[..|calls| - 1]);
    var job := NewJob(before, c.draft, c.id, c.now);
    assert AfterSaves(jobs, calls) == before + [job];
    assert ProjectKey(c.draft.project) == p;
    assert job.jobNumber == GenerateJobNumber(before, p);
    NewJobCounts(before, c.draft, c.id, c.now);
  }

  /** Saves for project P starting from a list with no number under `P-`
      append one job each, leave the earlier jobs alone, and leave as many
      numbers under `P-` as there were saves. */
  lemma {:induction false} SavesCount(jobs: seq<Job>, p: string, calls: seq<SaveCall>)
    requires p != ""
    requires forall i :: 0 <= i < |calls| ==> calls[i].draft.project == Some(p)
    requires PrefixCount(jobs, p + "-") == 0
    ensures var after := AfterSaves(jobs, calls);
      |after| == |jobs| + |calls| && after[..|jobs|] == jobs &&
      PrefixCount(after, p + "-") == |calls|
  {
    if calls != [] {
      var init := calls[..|calls| - 1];
      SavesCount(jobs, p, init);
      SaveOneMore(jobs, p, calls);
      var before, after := AfterSaves(jobs, init), AfterSaves(jobs, calls);
      assert after[..|jobs|] == before[..|jobs|];
    }
  }

  /** Starting from a list with no number under `P-`, consecutive saves for
      project P are numbered P-001, P-002, ... in order: the job at position
      |jobs| + i gets P-PadStart3(i + 1). */
  lemma {:induction false} SequentialNumbering(jobs: seq<Job>, p: string, calls: seq<SaveCall>)
    requires p != ""
    requires forall i :: 0 <= i < |calls| ==> calls[i].draft.project == Some(p)
    requires PrefixCount(jobs, p + "-") == 0
    ensures var after := AfterSaves(jobs, calls);
      |after| == |jobs| + |calls| &&
      forall k :: |jobs| <= k < |after| ==>
        after[k].jobNumber == NumberUnder(p + "-", k - |jobs| + 1)
  {
    SavesCount(jobs, p, calls);
    if calls != [] {
      var init := calls[..|calls| - 1];
      SequentialNumbering(jobs, p, init);
      SavesCount(jobs, p, init);
      SaveOneMore(jobs, p, calls);
      var before, after := AfterSaves(jobs, init), AfterSaves(jobs, calls);
      NumberFromCount(before, p);
      forall k | |jobs| <= k < |after|
        ensures after[k].jobNumber == NumberUnder(p + "-", k - |jobs| + 1)
      {
        if k < |before| {
          assert after[k] == before[k];
        } else {
          assert k - |jobs| + 1 == PrefixCount(before, p + "-") + 1;
        }
      }
    }
  }

  /** Without deletions, consecutive saves for one project never repeat a
      number. */
  lemma SequentialNumbersDistinct(jobs: seq<Job>, p: string, calls: seq<SaveCall>)
    requires p != ""
    requires forall i :: 0 <= i < |calls| ==> calls[i].draft.project == Some(p)
    requires PrefixCount(jobs, p + "-") == 0
    ensures var after := AfterSaves(jobs, calls);
      forall a, b :: |jobs| <= a < b < |after| ==> after[a].jobNumber != after[b].jobNumber
  {
    SequentialNumbering(jobs, p, calls);
    var after := AfterSaves(jobs, calls);
    forall a, b | |jobs| <= a < b < |after|
      ensures after[a].jobNumber != after[b].jobNumber
    {
      if after[a].jobNumber == after[b].jobNumber {
        PrefixedNumberInjective(p + "-", a - |jobs| + 1, b - |jobs| + 1);
      }
    }
  }

  /** Under one prefix, distinct counts give distinct numbers. */
  lemma PrefixedNumberInjective(prefix: string, x: nat, y: nat)
    requires NumberUnder(prefix, x) == NumberUnder(prefix, y)
    ensures x == y
  {
    var u, v := PadStart3(Decimal(x)), PadStart3(Decimal(y));
    assert u == (prefix + u)[|prefix|..];
    assert v == (prefix + v)[|prefix|..];
    PaddedDecimalInjective(x, y);
  }

  /** With exactly one job already numbered under `project-`, the next number
      is `project-002`. */
  lemma SecondNumber(j: Job, project: string)
    requires StartsWith(j.jobNumber, project + "-")
    ensures GenerateJobNumber([j], project) == project + "-002"
  {
    assert [j][..0] == [];
    assert PrefixCount([j], project + "-") == 1;
    PaddedDecimalShape(2);
    assert PadStart3(Decimal(2)) == "002";
    assert NumberUnder(project + "-", 2) == project + "-002";
  }

  /** Counting is by string prefix: a job of a project named "P-x" counts
      toward project "P", so the first job of P is numbered P-002. */
  lemma PrefixCountsOtherProjects(j: Job)
    requires j.jobNumber == "P-x-001"
    ensures GenerateJobNumber([j], "P") == "P-002"
  {
    assert j.jobNumber[..2] == "P-";
    SecondNumber(j, "P");
  }

  /** Deleting can make the store re-issue a number still in use: with P-001
      and P-002 present, deleting P-001 and saving under P numbers the new job
      P-002 again. */
  lemma DeleteThenSaveRepeatsNumber(j1: Job, j2: Job, d: JobDraft, id: string, now: string)
    requires j1.jobNumber == "P-001" && j2.jobNumber == "P-002"
    requires j1.id != j2.id
    requires d.project == Some("P")
    ensures var left := JobsAfterDelete([j1, j2], j1.id);
      left == [j2] &&
      NewJob(left, d, id, now).jobNumber == j2.jobNumber
  {
    assert FindJobIndex([j1, j2], j1.id) == Some(0);
    assert RemoveAt([j1, j2], 0) == [j2];
    assert j2.jobNumber[..2] == "P-";
    SecondNumber(j2, "P");
    assert NewJob([j2], d, id, now).jobNumber == GenerateJobNumber([j2], "P");
    assert "P" + "-002" == "P-002";
  }

  /** A job submitted from an empty store for project P1 is numbered P1-001
      and keeps the status it was submitted with. */
  lemma FirstSubmissionScenario(d: JobDraft, id: string, now: string)
    requires d.project == Some("P1") && d.status == Some(Submitted)
    ensures NewJob([], d, id, now).jobNumber == "P1-001"
    ensures NewJob([], d, id, now).status == Submitted
  {
    PaddedDecimalShape(1);
    assert PadStart3(Decimal(1)) == "001";
  }
}
