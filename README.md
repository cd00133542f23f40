# Material calculation job system — a Dafny model of its core

This project models the core of a small web application where users submit material-calculation jobs. The core has four parts:

- **The job store** (`src/utils/jobManager.ts`). It keeps an ordered list of jobs and creates each new job with a per-project number (`P1-001`, `P1-002`, ...). It also looks jobs up, updates them and deletes them. After every change it saves the whole list through a storage adapter. The adapter picks one of three backends: localStorage, sessionStorage, or an in-memory array. It may also copy the list under a backup key.
- **The React components**, with their handlers lifted into classes over explicit state:
  - the submission form: validation, submit, and allocation of new project ids;
  - the job list: filters, selection, batch delete, batch export;
  - the settings dialog: switching backend, auto-backup, import, restore, clear-all.
- **The HTTP route** `src/app/api/jobs/route.ts`. `GET` returns the list; `POST` checks the required fields and creates a job.
- **The four category registries** under `src/data/`. These are constant tables with lookup by id.

Modules follow the source files:

| Dafny file | module | models |
|---|---|---|
| `job_types.dfy` | `JobTypes` | `src/types/job.ts` |
| `storage.dfy` | `Storage` | the storage adapter of `jobManager.ts` (backends, load, save, backup) |
| `job_manager.dfy` | `JobManager` | the job store of `jobManager.ts` |
| `submission_form.dfy` | `SubmissionForm` | `JobSubmissionForm.tsx` |
| `job_list.dfy` | `JobList` | `JobList.tsx` |
| `settings_modal.dfy` | `SettingsModal` | `SettingsModal.tsx` |
| `jobs_route.dfy` | `JobsRoute` | `src/app/api/jobs/route.ts` |
| `registry.dfy`, `computations.dfy`, `packages.dfy`, `run_types.dfy`, `projects.dfy` | `Registry`, `Computations`, `Packages`, `RunTypes`, `Projects` | `src/data/*.ts` |
| `js_text.dfy`, `seqs.dfy`, `wrappers.dfy` | `JsText`, `Seqs`, `Wrappers` | the JavaScript string and array primitives the code relies on, and `Option` |

Modelling choices:

- **Browser storage.** It is a `Browser` object with two maps from key to stored value. A stored value is text, a parsed job array or a parsed project array; serialisation is the identity. A value of the wrong shape reads as "does not parse".
- **The adapter.** Its behaviour is a pair of pure functions, `Storage.LoadJobs` and `Storage.SaveJobs`, over a `Backend` snapshot. The store's methods are proved against them.
- **Values from outside the model.** Ids (`uuidv4()`), times (`new Date()`), the answer to `window.confirm`, the parsed import file and the per-job report generators are all parameters.
- **Names.** The TypeScript field `type` is called `jobType`, because `type` is a Dafny keyword.

Things the model shows about the code as written, each proved as a lemma:

- **Duplicate numbers.** Numbers are counted by string prefix, so deleting a job and then creating one can re-issue a number that is still in use (`JobManager.DeleteThenSaveRepeatsNumber`). A project named `P-x` also counts toward `P` (`JobManager.PrefixCountsOtherProjects`).
- **Auto-backup flag.** The settings dialog reads the flag as on only when it is exactly `'true'`. The adapter treats it as on unless it is exactly `'false'`. So an absent flag shows as off while backups continue (`SettingsModal.AutoBackupReadings`).
- **Stale in-memory list.** Import, restore and clear-all write storage but never the store's in-memory list. The next save therefore overwrites the import (`SettingsModal.ImportLostOnNextSave`) and brings the cleared list back (`SettingsModal.ClearedJobsComeBack`, `SettingsModal.ClearThenSubmit`).
- **Whitespace titles.** The route's required-field check does not trim, so a title of white space passes the route but not the form (`JobsRoute.WhitespacePassesRouteOnly`).

## Model

| member | source | states |
|---|---|---|
| `Registry.FindById` | src/data/computations.ts:15-16 | `find` by id: a found entry is the first entry of the list with the queried id; nothing is found exactly when no listed id equals the query |
| `Registry.FindListed` | src/data/types.ts:18-19 | when the ids are distinct, looking up a listed id returns exactly that entry |
| `Registry.NameOrId` | src/components/JobList.tsx:422-434 | the display fallback `lookup(id)?.name \|\| id`: an unknown id is shown as itself, and a listed id with a non-empty name is shown as that name |
| `Computations.GetComputationCategoryById` | src/data/computations.ts:15-16 | the result is a listed entry with the queried id, and is absent exactly for ids other than `dft`, `qc`, `md` |
| `Computations.ComputationRegistry` | src/data/computations.ts:7-11 | the registry is `dft`, `qc`, `md` in that order, with distinct ids, and every entry has a description |
| `Computations.ComputationLookup` | src/data/computations.ts:15-16 | every listed id finds its own entry |
| `Packages.GetPackageCategoryById` | src/data/packages.ts:16-17 | the result is a listed entry with the queried id, and is absent exactly for ids other than `abinit`, `orca`, `gaussian` |
| `Packages.PackageRegistry` | src/data/packages.ts:8-12 | the registry is `abinit`, `orca`, `gaussian` in that order, with distinct ids, and every entry has a version and a description |
| `Packages.PackageLookup` | src/data/packages.ts:16-17 | every listed id finds its own entry; `''` and `'all'` find nothing |
| `RunTypes.GetTypeCategoryById` | src/data/types.ts:18-19 | the result is a listed entry with the queried id, and is absent exactly for ids outside the six run types |
| `RunTypes.TypeRegistry` | src/data/types.ts:7-14 | the registry is the six run types in source order, with distinct ids, and every entry has a description |
| `RunTypes.TypeLookup` | src/data/types.ts:18-19 | every listed id finds its own entry |
| `Projects.GetProjectCategories` | src/data/projects.ts:8-17 | the static project list is empty |
| `Projects.GetProjectCategoryById` | src/data/projects.ts:19-26 | a supplied list is searched instead of the static one, and a found project is the first one in it with the queried id; nothing is found exactly when no supplied id matches; without a list nothing is ever found |
| `JobTypes.StatusName` | src/types/job.ts:11 | every status is stored as one of the four strings of the union |
| `JobTypes.UpdateKeepsIdentity` | src/utils/jobManager.ts:160-167 | a partial update never changes the id or the job number, does not refresh `lastUpdated` unless it names it, and an empty update changes nothing |
| `JsText.TrimEmptyIffBlank` | src/components/JobSubmissionForm.tsx:106-109 | `s.trim()` is empty exactly when `s` consists of white space only |
| `JsText.Decimal` | src/utils/jobManager.ts:117 | `n.toString()` is a non-empty digit string that denotes `n`, with no leading zero unless `n` is 0 |
| `JsText.DecimalLength` | src/utils/jobManager.ts:117 | `n.toString()` has 1, 2 or 3 digits for n below 10, 100 or 1000, and at least 4 from 1000 on |
| `JsText.PaddedDecimalShape` | src/utils/jobManager.ts:117 | `padStart(3, '0')` renders 1-9 as `00d`, 10-99 as `0dd`, and leaves 100 upward untouched, so 1000 upward is not truncated |
| `JsText.PaddedDecimalInjective` | src/utils/jobManager.ts:117 | distinct sequence values get distinct padded renderings |
| `JsText.ParseIntDecimal` | src/components/JobSubmissionForm.tsx:198 | `parseInt` reads a positive number's own decimal rendering back |
| `JsText.RemoveFirst` | src/components/JobSubmissionForm.tsx:75 | `replace('P', '')` leaves a string without `P` as it is and otherwise drops exactly one character |
| `JsText.RemoveFirstDropsFirst` | src/components/JobSubmissionForm.tsx:75 | the character dropped is the first `P`: everything before and after it is kept |
| `JsText.CodePointCompare` | src/components/JobSubmissionForm.tsx:78 | the fallback comparison is zero exactly for equal ids |
| `JsText.CodePointCompareFlips` | src/components/JobSubmissionForm.tsx:78 | the fallback comparison is antisymmetric: a sorts before b exactly when b sorts after a |
| `Seqs.Filter` | src/utils/jobManager.ts:112-114 | `filter` keeps exactly the elements that pass the test, and no more of them than there were |
| `Seqs.FirstIndex` | src/utils/jobManager.ts:143 | `findIndex` gives the first index whose element passes, or none when no element passes |
| `Seqs.Find` | src/utils/jobManager.ts:129 | `find` gives the first element of the list that passes, or none when no element passes |
| `Seqs.RemoveAt` | src/utils/jobManager.ts:155 | `splice(i, 1)` removes exactly index `i` and keeps the other elements in order |
| `Seqs.SortByPermutes` | src/components/JobSubmissionForm.tsx:74 | sorting neither loses nor adds an element |
| `Seqs.SortByOrders` | src/components/JobSubmissionForm.tsx:74-79 | when the comparator orders every element by a key, the sorted list is ordered by that key |
| `Storage.NoWindowIsInert` | src/utils/jobManager.ts:29-30 | without a window, a save changes nothing and a load gives the empty list |
| `Storage.MemoryMode` | src/utils/jobManager.ts:29-65 | in memory mode, a save replaces the in-memory array and touches no browser key, and a load returns that array |
| `Storage.UnknownFlagSelectsLocal` | src/utils/jobManager.ts:11-26 | an absent, empty or unknown storage-type flag selects localStorage, and an absent jobs key loads as the empty list |
| `Storage.UnknownFlagStillMirrors` | src/utils/jobManager.ts:73-77 | an unknown storage-type flag still causes the backup copy, while the flag `'localStorage'` does not |
| `Storage.SessionSaveBacksUp` | src/utils/jobManager.ts:70-77 | a sessionStorage save writes the session jobs key, and also the backup key unless the flag is exactly `'false'` |
| `Storage.SaveKeepsSettings` | src/utils/jobManager.ts:57-81 | a save never changes which backend is active or how the auto-backup flag reads |
| `Storage.SaveThenLoad` | src/utils/jobManager.ts:29-81 | in a browser, a load after a save returns the list saved, whichever backend is active |
| `Storage.LastSaveWins` | src/utils/jobManager.ts:57-81 | of two saves only the second is visible: the first leaves no trace |
| `Storage.SaveLoadedIsIdempotent` | src/utils/jobManager.ts:29-81 | saving the list just loaded changes nothing a later load sees, and leaves a stored list as it was |
| `JobManager.ProjectKey` | src/utils/jobManager.ts:97 | `project \|\| 'Noproject'` is never empty, and is the project itself when the project is present and non-empty |
| `JobManager.PrefixCountIsFilterLength` | src/utils/jobManager.ts:112-114 | the count used for numbering is the length of the filtered list of jobs whose number starts with the prefix |
| `JobManager.JobNumberMeaning` | src/utils/jobManager.ts:107-122 | a new number is the project, a dash, and at least three digits denoting one more than the count of numbers under that prefix |
| `JobManager.FindJobIndex` | src/utils/jobManager.ts:143 | the index found holds the first job with the id; none is found exactly when no job has it |
| `JobManager.GetJobById` | src/utils/jobManager.ts:128-130 | the job found has the id and is the first such job; none is found exactly when no job has it |
| `JobManager.GetJobsByCategory` | src/utils/jobManager.ts:133-139 | the result holds exactly the jobs of that computation |
| `JobManager.JobManager.Init` | src/utils/jobManager.ts:84-89 | at start the in-memory backend is empty, and in a browser the list is loaded from the active backend |
| `JobManager.JobManager.LoadJobsFromStorage` | src/utils/jobManager.ts:29-55 | the method computes the adapter's load |
| `JobManager.JobManager.SaveJobsToStorage` | src/utils/jobManager.ts:57-81 | the method performs the adapter's save and leaves the job list alone |
| `JobManager.JobManager.SaveJob` | src/utils/jobManager.ts:91-105 | appends exactly one job at the end and keeps the others; the job has the given id, the same creation and update time, the given status or `draft`, and the next number under its project (or `Noproject`); the whole list is saved |
| `JobManager.JobManager.LoadSampleJobs` | src/utils/jobManager.ts:170-174 | the current list is saved again, unchanged |
| `JobManager.JobManager.GetJobs` | src/utils/jobManager.ts:124-126 | returns the current list |
| `JobManager.JobManager.UpdateJobStatus` | src/utils/jobManager.ts:142-149 | an absent id gives none and changes nothing; otherwise only the first job with the id gets the new status, the length and every other job stay, `lastUpdated` is not refreshed, and the list is saved |
| `JobManager.JobManager.UpdateJob` | src/utils/jobManager.ts:160-167 | an absent id gives none and changes nothing; otherwise only the first job with the id gets the updates, its id and number stay, every other job stays, and the list is saved |
| `JobManager.JobManager.DeleteJob` | src/utils/jobManager.ts:151-158 | the result is true exactly when the id is present; then the first job with it is removed, the others keep their order and the list is saved; otherwise nothing changes |
| `JobManager.NewJobCounts` | src/utils/jobManager.ts:112-117 | a new job is itself numbered under its project's prefix, so it raises that count by one |
| `JobManager.SaveOneMore` | src/utils/jobManager.ts:91-105 | one more save for a project appends one job, keeps the earlier ones, and numbers it by the list before it |
| `JobManager.SavesCount` | src/utils/jobManager.ts:97-117 | starting with no numbers under `P-`, n saves for P append n jobs, keep the earlier ones, and leave n numbers under `P-` |
| `JobManager.SequentialNumbering` | src/utils/jobManager.ts:107-122 | starting with no numbers under `P-`, consecutive saves for P are numbered P-001, P-002, ... in order, without gaps |
| `JobManager.SequentialNumbersDistinct` | src/utils/jobManager.ts:107-122 | without deletions, consecutive saves for one project never repeat a number |
| `JobManager.PrefixedNumberInjective` | src/utils/jobManager.ts:117-120 | under one prefix, different counts give different numbers |
| `JobManager.SecondNumber` | src/utils/jobManager.ts:112-120 | with one job already numbered under `P-`, the next number is `P-002` |
| `JobManager.PrefixCountsOtherProjects` | src/utils/jobManager.ts:112-114 | counting is by string prefix: a job numbered `P-x-001` makes the first job of project `P` number `P-002` |
| `JobManager.DeleteThenSaveRepeatsNumber` | src/utils/jobManager.ts:107-158 | with `P-001` and `P-002` present, deleting `P-001` and saving for P issues `P-002` a second time |
| `JobManager.FirstSubmissionScenario` | src/utils/jobManager.ts:91-122 | from an empty store, a job submitted for project P1 is numbered `P1-001` and keeps its status |
| `SubmissionForm.ValidationErrors` | src/components/JobSubmissionForm.tsx:99-113 | there is exactly one error entry per failing field, each with that field's message |
| `SubmissionForm.ValidateMeansComplete` | src/components/JobSubmissionForm.tsx:99-113 | validation succeeds exactly when the four selections are non-empty and the four text fields are not blank after trimming |
| `SubmissionForm.SelectionsAreNotTrimmed` | src/components/JobSubmissionForm.tsx:102-109 | a selection of white space is accepted, while the same text in a text field is refused |
| `SubmissionForm.MaxPNumberMeaning` | src/components/JobSubmissionForm.tsx:195-203 | the maximum is at least every project's number, and is 0 or the number of one of them |
| `SubmissionForm.MaxProjectNumber` | src/components/JobSubmissionForm.tsx:195-203 | the `forEach` loop computes the largest positive number behind a `P`, or 0 |
| `SubmissionForm.ContributionOfPId` | src/components/JobSubmissionForm.tsx:197-198 | an id `P<n>` with n positive contributes n |
| `SubmissionForm.NewProjectIdFresh` | src/components/JobSubmissionForm.tsx:204-209 | the new id is `P` followed by the maximum plus one, is used by no existing project, and the name is kept |
| `SubmissionForm.SortProjectsMeaning` | src/components/JobSubmissionForm.tsx:74-79 | the merged list is a permutation of its input, and is ordered by number when every id has a numeric part |
| `SubmissionForm.JobSubmissionForm.constructor` | src/components/JobSubmissionForm.tsx:17-66 | at mount, the four selections come from the stored hints, the other fields are empty, and the project list is merged and sorted |
| `SubmissionForm.JobSubmissionForm.RefreshProjects` | src/components/JobSubmissionForm.tsx:69-81 | the project list is rebuilt from storage, and kept when the stored list does not parse; no other field changes |
| `SubmissionForm.JobSubmissionForm.HandleSelect` | src/components/JobSubmissionForm.tsx:241-263 | a selection sets that field in the form and drops only that field's error; the other selections, the project list and the name input are unchanged |
| `SubmissionForm.JobSubmissionForm.HandleSubmit` | src/components/JobSubmissionForm.tsx:115-149 | a job is saved exactly when the form is complete, with status `submitted`; then all fields, selections, errors and the four hints are cleared; otherwise only the errors change, and the store, the form, the selections and the project list are as before |
| `SubmissionForm.JobSubmissionForm.ClearForm` | src/components/JobSubmissionForm.tsx:127-148 | after a submit, every field, selection and error is cleared and the hints are removed |
| `SubmissionForm.JobSubmissionForm.HandleSaveNewProject` | src/components/JobSubmissionForm.tsx:183-221 | a name that trims to nothing changes nothing (storage, selection, errors, project list, list version and name input are as before); otherwise a project with a fresh `P` id and the trimmed name is appended to the stored user list and selected |
| `SubmissionForm.JobSubmissionForm.AddUserProject` | src/components/JobSubmissionForm.tsx:190-220 | the new project is appended to the user list and selected, and the project error is dropped |
| `SubmissionForm.JobSubmissionForm.StoreUserProjects` | src/components/JobSubmissionForm.tsx:211-217 | the user list is written back, the list version is bumped, and the merged list is rebuilt |
| `SubmissionForm.JobSubmissionForm.SelectNewProject` | src/components/JobSubmissionForm.tsx:215-220 | the name input is closed and the new project is selected |
| `SubmissionForm.JobSubmissionForm.HandleDeleteUserProject` | src/components/JobSubmissionForm.tsx:223-239 | only when confirmed, every user project with the id is removed and the others keep their order; the selection is cleared only if it was that id; a declined delete leaves storage, selection, list version and project list as they were |
| `JobList.FilteredJobs` | src/components/JobList.tsx:38-42 | a job is listed exactly when each filter is `all` or matches it |
| `JobList.FilteredJobsKeepOrder` | src/components/JobList.tsx:38-42 | filtering keeps relative order |
| `JobList.AllFiltersShowEverything` | src/components/JobList.tsx:19-42 | with both filters at their initial `all`, every job is listed in order |
| `JobList.IdsOf` | src/components/JobList.tsx:104-105 | the set holds exactly the ids of the listed jobs |
| `JobList.SelectAllFlipsFlag` | src/components/JobList.tsx:100-107 | on a non-empty list, selecting every shown id makes the flag true, and clearing the selection makes it false |
| `JobList.AllSelectedIgnoresHidden` | src/components/JobList.tsx:45-52 | selected ids that the filter hides do not affect the all-selected flag |
| `JobList.Toggle` | src/components/JobList.tsx:90-98 | the membership of that id flips, and every other id's membership stays |
| `JobList.ToggleTwice` | src/components/JobList.tsx:90-98 | toggling the same id twice restores the selection |
| `JobList.DeleteIsDrop` | src/utils/jobManager.ts:151-158 | with distinct ids, deleting an id drops exactly the jobs with that id |
| `JobList.DeleteAllDropsBatch` | src/components/JobList.tsx:113-118 | with distinct ids, deleting a batch one id at a time removes exactly the jobs whose id is in the batch and keeps the rest in order, in whatever order the batch is visited |
| `JobList.ExportSelection` | src/components/JobList.tsx:131 | the exported jobs are exactly those both shown and selected |
| `JobList.ExportIgnoresHidden` | src/components/JobList.tsx:141 | a selected job hidden by the filter is not exported |
| `JobList.MarkdownExportLayout` | src/components/JobList.tsx:143-154 | the report's header carries the job count, and the job at index i has the section numbered i + 1, between the sections before and after it |
| `JobList.GetStatusColor` | src/components/JobList.tsx:169-177 | every string gets one of four colours, and gray exactly when it is not submitted, in progress or completed |
| `JobList.StatusColorsDistinct` | src/components/JobList.tsx:169-177 | the four statuses get four different colours |
| `JobList.UniqueComputations` | src/components/JobList.tsx:179 | each computation id of the jobs appears exactly once |
| `JobList.UniqueComputationsInOrder` | src/components/JobList.tsx:179 | the ids come in the order of their first appearance in the jobs, as a `Set` iterates |
| `JobList.DeleteCounted` | src/components/JobList.tsx:115-117 | one delete is counted exactly when it removed a job, and the saved state stays the save of the current list |
| `JobList.DeleteEach` | src/components/JobList.tsx:113-118 | every selected id is deleted once, in some order; the count is the number of jobs removed; the list is saved whenever it changed |
| `JobList.CombinedMarkdown` | src/components/JobList.tsx:143-154 | the loop builds exactly the header followed by one numbered section per exported job |
| `JobList.JobList.constructor` | src/components/JobList.tsx:19-23 | at mount both filters are `all` and nothing is selected |
| `JobList.JobList.SyncAllSelected` | src/components/JobList.tsx:45-52 | the flag is true exactly when the shown list is non-empty and every shown job is selected |
| `JobList.JobList.SelectJob` | src/components/JobList.tsx:90-98 | the selection becomes the toggle of that id |
| `JobList.JobList.SelectAll` | src/components/JobList.tsx:100-107 | clears the selection when all are selected; otherwise it selects exactly the shown ids |
| `JobList.JobList.BatchDelete` | src/components/JobList.tsx:109-126 | does nothing for an empty selection or without confirmation; otherwise it deletes every selected id, shown or hidden, counts the removals, and only when something was removed and the callback exists hands over the new list and clears the selection |
| `JobList.JobList.BatchExportMarkdown` | src/components/JobList.tsx:138-154 | nothing for an empty selection; otherwise the combined report of the shown and selected jobs |
| `JobList.JobList.BatchExportPdf` | src/components/JobList.tsx:128-135 | nothing for an empty selection; otherwise one document per shown and selected job, in list order |
| `JobList.JobList.StatusChange` | src/components/JobList.tsx:71-78 | the store's status update: only the first job with the id changes and the full list is persisted, or nothing changes when the id is absent; the new list goes to the callback exactly when a job was updated and the callback exists |
| `JobList.JobList.DeleteOne` | src/components/JobList.tsx:80-88 | only when confirmed, the store's delete, persisting the remaining list when a job was removed; the new list goes to the callback exactly when a job was removed and the callback exists |
| `SettingsModal.DialogShowsActiveBackend` | src/components/SettingsModal.tsx:22 | the dialog shows the storage type the adapter uses |
| `SettingsModal.AutoBackupReadings` | src/components/SettingsModal.tsx:23 | the dialog and the adapter disagree on auto-backup exactly when the flag is neither `true` nor `false`; an absent flag shows as off while backups continue |
| `SettingsModal.WrittenFlagReadsBack` | src/components/SettingsModal.tsx:218-220 | a flag the dialog wrote reads back the same in the dialog and in the adapter |
| `SettingsModal.SwitchTakesEffect` | src/components/SettingsModal.tsx:33-39 | after a switch the adapter uses the chosen backend and the dialog's auto-backup setting, and the backup key holds the list exactly when it was not empty |
| `SettingsModal.SwitchMovesListOnNextSave` | src/components/SettingsModal.tsx:29-51 | the switch does not move the list; the next save writes it into the new backend |
| `SettingsModal.Records` | src/components/SettingsModal.tsx:78-83 | the imported records are the file's entries, one for one, each with a non-empty id and title |
| `SettingsModal.BackupContents` | src/components/SettingsModal.tsx:117-120 | there is no backup exactly when the key is absent or empty; a stored value that is not a job list is an error |
| `SettingsModal.ImportLostOnNextSave` | src/components/SettingsModal.tsx:85-88 | an import is loaded back from storage, but the next save of the store's old list erases it |
| `SettingsModal.RestoreSkipsTheCheck` | src/components/SettingsModal.tsx:116-127 | a backup holding a record with an empty id is restored, while an import of the same record is refused |
| `SettingsModal.ClearedLocal` | src/components/SettingsModal.tsx:107-109 | clear-all removes the jobs key and the backup key and keeps every other key |
| `SettingsModal.ClearedJobsComeBack` | src/components/SettingsModal.tsx:104-114 | after clear-all the stored list is empty, but the next job created saves the whole old list again |
| `SettingsModal.SettingsModal.constructor` | src/components/SettingsModal.tsx:16-17 | the dialog starts with localStorage and auto-backup on |
| `SettingsModal.SettingsModal.Open` | src/components/SettingsModal.tsx:20-27 | in a browser, opening the dialog reads both settings from localStorage |
| `SettingsModal.SettingsModal.StorageTypeChange` | src/components/SettingsModal.tsx:29-51 | writes both flags; when the list is non-empty it copies the list to the backup key, drops the session jobs key if the old type was sessionStorage, and asks for a refresh; the store's list stays |
| `SettingsModal.SettingsModal.SetAutoBackup` | src/components/SettingsModal.tsx:218-220 | the switch and its stored flag follow the checkbox |
| `SettingsModal.SettingsModal.ImportData` | src/components/SettingsModal.tsx:68-102 | no file, an unreadable file, a non-array or a failed shape check write nothing; a valid file is saved over the active backend only when confirmed; the store's list never changes |
| `SettingsModal.SettingsModal.RestoreBackup` | src/components/SettingsModal.tsx:116-137 | no backup writes nothing; a malformed backup is an error; otherwise, when confirmed, the backup list is saved over the active backend; the store's list never changes |
| `SettingsModal.SettingsModal.ClearData` | src/components/SettingsModal.tsx:104-114 | when confirmed, the jobs key goes from both storages and the backup key from localStorage; nothing else changes |
| `SettingsModal.ClearThenSubmit` | src/components/SettingsModal.tsx:104-114 | a clear-all followed by a submission leaves the whole old list plus the new job in localStorage |
| `JobsRoute.DraftOfBody` | src/app/api/jobs/route.ts:24-27 | the store receives the body's fields with status forced to `submitted` |
| `JobsRoute.PostCreatesSubmittedJob` | src/app/api/jobs/route.ts:24-29 | the created job is submitted, has the store's id and time, and is numbered under the body's project |
| `JobsRoute.ClientBookkeepingIgnored` | src/app/api/jobs/route.ts:24-27 | the draft handed to `saveJob` does not carry the client's id, number or dates, so bodies differing only in those create the same job; the overwrite at `saveJob` is not separately modelled |
| `JobsRoute.CompleteFormPassesRoute` | src/app/api/jobs/route.ts:20 | every form the dialog accepts passes the route's check, and both give the store the same draft |
| `JobsRoute.WhitespacePassesRouteOnly` | src/app/api/jobs/route.ts:20 | text fields of white space pass the route's check but not the form's |
| `JobsRoute.Get` | src/app/api/jobs/route.ts:5-13 | returns exactly the store's current list |
| `JobsRoute.Post` | src/app/api/jobs/route.ts:15-34 | an unparseable body gives 500 and a missing field gives 400, both without touching the store; otherwise exactly one submitted job is appended and saved, and returned with 201 |

## Left out

- Rendering, CSS classes, `alert` messages and the `useEffect`s that mirror the selections into the hint keys (`JobSubmissionForm.tsx` lines 151-181) are not modelled. They are presentation only.
- The buttons that only open or close the add and manage panels, and the text inputs and filter drop-downs that set a single field, are not modelled. Each is a plain assignment.
- The list's own read of the user project list (`JobList.tsx` lines 26-36) is not modelled. It feeds only the report generators and the project names shown.
- Downloads (`Blob`, `URL.createObjectURL`) are not modelled, and the JSON export (`SettingsModal.tsx` lines 53-66) is left out entirely, because it only writes a file.
- `FileReader` is replaced by the file's parsed content, handed in as a value.
- `src/utils/reportGenerator` is not part of this model. The PDF and markdown body generators are function parameters.
- `uuidv4()`, `new Date()`, `toISOString()` and `toLocaleDateString()` are parameters.
- The `submittedAt` date rehydration on load, import and restore is left out. The field is not part of the job record.
- JSON formats: serialisation is the identity.
- An import file whose array holds `null` makes the source's shape check throw. The model reports this as an invalid format rather than a read error; nothing is written in either case.
- The `try`/`catch` around `setItem` (quota errors) is not modelled.
- `JobsRoute.Get`: the `catch` branch that answers 500 is not modelled, because `getJobs` cannot throw in the model.
- `JsText.CodePointCompare`: this stands in for `localeCompare` by comparing code points, which agrees with UTF-16 code-unit order except for characters above U+FFFF. Locale collation is not modelled, and its contract states only that the result is zero exactly for equal strings (with antisymmetry in `CodePointCompareFlips`), not which order it gives.
- `SubmissionForm.SortProjectsMeaning`: this states the order only when every id has a numeric part. The comparator mixes numeric and text order and is not a total order otherwise, so the order of mixed lists depends on the engine's sort algorithm. The model sorts with a stable insertion sort.
- `JsText.ParseIntDecimal`: `parseInt` is modelled on unbounded integers. Precision loss above 2^53 is not modelled.
- `SubmissionForm.NewProjectIdFresh` and `JsText.Decimal`: JavaScript numbers are modelled as unbounded integers. At 2^53, `maxPId + 1` rounds back to an existing value, so the new id need not be fresh there; from 1e21 on, `toString` uses exponent form rather than plain digits. Neither is modelled.
- `JobList.DeleteAllDropsBatch`: this assumes the jobs have distinct ids. The store's ids come from `uuidv4()`, but nothing in the code enforces that they are distinct.
- `JobList.JobList.BatchDelete`: the order in which a `Set` is visited is an arbitrary ghost sequence `order`, not insertion order.
- `SubmissionForm.JobSubmissionForm.HandleSaveNewProject`, `SubmissionForm.JobSubmissionForm.HandleDeleteUserProject`, `SettingsModal.SettingsModal.StorageTypeChange`, `SettingsModal.SettingsModal.SetAutoBackup`, `SettingsModal.SettingsModal.ImportData`, `SettingsModal.SettingsModal.RestoreBackup` and `SettingsModal.SettingsModal.ClearData` require a browser window. They use `localStorage` directly, which does not exist when rendering on the server.
- `src/app/page.tsx` is not part of this model. It is page glue, including its seeding of an empty store.
- `src/data/sampleJobs.ts` is not part of this model. It is fixture data in an older record shape.
- The categories route is not part of this model. It always returns an empty list.
- Several tabs writing the same storage at once are not modelled; the code does not coordinate them.
