/** The rules of the job list (`src/components/JobList.tsx`): filtering by
    computation and status, the selection and its "all selected" flag, batch
    delete through the store, the batch exports and the small display
    helpers. The `jobs` prop is a field the parent may replace; the
    `onJobUpdate` callback is represented by its presence and by the list a
    handler hands to it. `window.confirm` is a boolean input and the report
    generators are function parameters. */
module JobList {
  import opened Wrappers
  import opened JsText
  import opened Seqs
  import opened JobTypes
  import opened Storage
  import opened JobManager

  // ---------------------------------------------------------------------------
  // Filtering

  /** The test `filteredJobs` applies: each filter is 'all' or must match. */
  predicate Shown(job: Job, filterComputation: string, filterStatus: string) {
    (filterComputation == "all" || job.computation == filterComputation) &&
    (filterStatus == "all" || StatusName(job.status) == filterStatus)
  }

  /** `filteredJobs`. */
  function FilteredJobs(jobs: seq<Job>, filterComputation: string, filterStatus: string): (r: seq<Job>)
    ensures |r| <= |jobs|
    ensures forall j :: j in r <==> j in jobs && Shown(j, filterComputation, filterStatus)
  {
    Filter(jobs, (j: Job) => Shown(j, filterComputation, filterStatus))
  }

  /** Filtering keeps relative order: the filter of a concatenation is the
      concatenation of the filters. */
  lemma FilteredJobsKeepOrder(a: seq<Job>, b: seq<Job>, fc: string, fs: string)
    ensures FilteredJobs(a + b, fc, fs) == FilteredJobs(a, fc, fs) + FilteredJobs(b, fc, fs)
  {
    FilterConcat(a, b, (j: Job) => Shown(j, fc, fs));
  }

  /** With both filters at 'all' every job is listed, in order. */
  lemma AllFiltersShowEverything(jobs: seq<Job>)
    ensures FilteredJobs(jobs, "all", "all") == jobs
  {
    FilterAll(jobs, (j: Job) => Shown(j, "all", "all"));
  }

  /** The ids of a list of jobs, as `new Set(jobs.map(job => job.id))`. */
  function IdsOf(jobs: seq<Job>): (r: set<string>)
    ensures forall id :: id in r <==> exists i :: 0 <= i < |jobs| && jobs[i].id == id
  {
    set i | 0 <= i < |jobs| :: jobs[i].id
  }

  /** The value the `isAllSelected` effect computes. */
  predicate AllSelected(filtered: seq<Job>, selected: set<string>) {
    |filtered| > 0 && forall i :: 0 <= i < |filtered| ==> filtered[i].id in selected
  }

  /** Selecting every filtered id makes the flag true, and clearing the
      selection makes it false: the two branches of select-all each flip it
      when the list is not empty. */
  lemma SelectAllFlipsFlag(filtered: seq<Job>)
    requires |filtered| > 0
    ensures AllSelected(filtered, IdsOf(filtered))
    ensures !AllSelected(filtered, {})
  {
    assert filtered[0].id !in {};
  }

  /** The flag only depends on the filtered ids: selected ids the filter hides
      make no difference. */
  lemma {:induction false} AllSelectedIgnoresHidden(filtered: seq<Job>, selected: set<string>)
    ensures AllSelected(filtered, selected) <==> AllSelected(filtered, selected * IdsOf(filtered))
  {
    if AllSelected(filtered, selected) {
      forall i | 0 <= i < |filtered|
        ensures filtered[i].id in selected * IdsOf(filtered)
      {
        assert filtered[i].id in IdsOf(filtered);
      }
    }
  }

  /** The selection after `handleSelectJob(id)`. */
  function Toggle(selected: set<string>, id: string): (r: set<string>)
    ensures id in r <==> id !in selected
    ensures forall other :: other != id ==> (other in r <==> other in selected)
  {
    if id in selected then selected - {id} else selected + {id}
  }

  /** Toggling the same id twice restores the selection. */
  lemma ToggleTwice(selected: set<string>, id: string)
    ensures Toggle(Toggle(selected, id), id) == selected
  {
    var once := Toggle(selected, id);
    var twice := Toggle(once, id);
    forall x ensures x in twice <==> x in selected {
      if x == id {
        assert (x in twice) == (x !in once);
      }
    }
  }

  // ---------------------------------------------------------------------------
  // Batch delete

  /** The store's list after `deleteJob` has been called on each id of `ids`
      in turn. */
  function DeleteAll(jobs: seq<Job>, ids: seq<string>): seq<Job>
    decreases |ids|
  {
    if ids == [] then jobs
    else JobsAfterDelete(DeleteAll(jobs, ids[..|ids| - 1]), ids[|ids| - 1])
  }

  function JobId(job: Job): string {
    job.id
  }

  /** With distinct ids, `deleteJob(id)` drops exactly the jobs with that id. */
  lemma DeleteIsDrop(jobs: seq<Job>, id: string)
    requires DistinctKeys(jobs, JobId)
    ensures JobsAfterDelete(jobs, id) == DropKeys(jobs, JobId, {id})
  {
    match FindJobIndex(jobs, id)
    case None =>
      DropKeysNothing(jobs, JobId, {id});
    case Some(i) =>
      forall k | 0 <= k < |jobs| && k != i ensures JobId(jobs[k]) != JobId(jobs[i]) {
        if k < i {
          assert JobId(jobs[k]) != JobId(jobs[i]);
        } else {
          assert JobId(jobs[i]) != JobId(jobs[k]);
        }
      }
      RemoveAtIsDropKey(jobs, JobId, i);
  }

  /** The set of ids in a sequence. */
  function Elements(ids: seq<string>): set<string> {
    set x | x in ids
  }

  lemma DeleteAllSnoc(jobs: seq<Job>, ids: seq<string>, id: string)
    ensures DeleteAll(jobs, ids + [id]) == JobsAfterDelete(DeleteAll(jobs, ids), id)
  {
    assert (ids + [id])[..|ids|] == ids;
  }

  /** One step of walking a set: the visited ids and the remaining ones
      still split it. */
  lemma MoveToDone(done: seq<string>, rest: set<string>, ids: set<string>, id: string)
    requires Elements(done) + rest == ids && Elements(done) !! rest && |done| + |rest| == |ids|
    requires id in rest
    ensures Elements(done + [id]) + (rest - {id}) == ids && Elements(done + [id]) !! rest - {id}
    ensures |done + [id]| + |rest - {id}| == |ids|
  {
    assert Elements(done + [id]) == Elements(done) + {id};
  }

  /** With distinct ids, deleting a batch of ids one after the other removes
      exactly the jobs whose id is in the batch and keeps the rest in order,
      whatever order the batch is visited in. */
  lemma {:induction false} DeleteAllDropsBatch(jobs: seq<Job>, ids: seq<string>)
    requires DistinctKeys(jobs, JobId)
    ensures DeleteAll(jobs, ids) == DropKeys(jobs, JobId, Elements(ids))
    decreases |ids|
  {
    if ids == [] {
      assert Elements(ids) == {};
      DropKeysNothing(jobs, JobId, {});
    } else {
      var init, last := ids[..|ids| - 1], ids[|ids| - 1];
      DeleteAllDropsBatch(jobs, init);
      DropKeysKeepsDistinct(jobs, JobId, Elements(init));
      DeleteIsDrop(DropKeys(jobs, JobId, Elements(init)), last);
      DropKeysTwice(jobs, JobId, Elements(init), {last});
      assert ids == init + [last];
      assert Elements(init) + {last} == Elements(ids);
    }
  }

  // ---------------------------------------------------------------------------
  // Batch export

  /** `filteredJobs.filter(job => selectedJobs.has(job.id))`: the jobs both
      shown and selected, in list order. */
  function ExportSelection(filtered: seq<Job>, selected: set<string>): (r: seq<Job>)
    ensures |r| <= |filtered|
    ensures forall j :: j in r <==> j in filtered && j.id in selected
  {
    Filter(filtered, (j: Job) => j.id in selected)
  }

  /** A selection hidden by the filter is not exported. */
  lemma ExportIgnoresHidden(filtered: seq<Job>, selected: set<string>)
    ensures ExportSelection(filtered, selected) == ExportSelection(filtered, selected * IdsOf(filtered))
  {
    var p := (j: Job) => j.id in selected;
    var q := (j: Job) => j.id in selected * IdsOf(filtered);
    FilterAgrees(filtered, p, q);
  }

  /** Two tests that agree on the elements of a list filter it alike. */
  lemma {:induction false} FilterAgrees(s: seq<Job>, p: Job -> bool, q: Job -> bool)
    requires forall i :: 0 <= i < |s| ==> p(s[i]) == q(s[i])
    ensures Filter(s, p) == Filter(s, q)
  {
    if s != [] {
      FilterAgrees(s[1..], p, q);
    }
  }

  /** The head of the combined markdown: title, date, count and a rule. */
  function Header(date: string, count: nat): string {
    "# Batch Job Export Report\n\n" + ("Generated on: " + date + "\n\n") +
    ("Total Jobs: " + Decimal(count) + "\n\n") + "---\n\n"
  }

  /** The heading of the job at (one-based) position `n`. */
  function Heading(n: nat, job: Job): string {
    "## Job " + Decimal(n) + ": " + job.title + "\n\n"
  }

  /** The section for the job at (one-based) position `n`: its heading, its
      report and a rule. */
  function Section(n: nat, job: Job, report: Job -> string): string {
    Heading(n, job) + report(job) + "\n\n---\n\n"
  }

  /** `Section` with the report generator fixed. */
  function Sections(report: Job -> string): (nat, Job) -> string {
    (n: nat, job: Job) => Section(n, job, report)
  }

  /** The combined markdown report of the exported jobs. */
  function MarkdownExport(date: string, jobs: seq<Job>, report: Job -> string): string {
    Header(date, |jobs|) + ConcatNumbered(jobs, 0, Sections(report))
  }

  /** The report's header gives the number of jobs, and the job at index i
      has the section numbered i + 1, between the sections of the jobs
      before and after it. */
  lemma MarkdownExportLayout(date: string, jobs: seq<Job>, report: Job -> string, i: nat)
    requires i < |jobs|
    ensures MarkdownExport(date, jobs, report) ==
            Header(date, |jobs|) + (ConcatNumbered(jobs[..i], 0, Sections(report)) +
            Section(i + 1, jobs[i], report) + ConcatNumbered(jobs[i + 1..], i + 1, Sections(report)))
  {
    ConcatNumberedAt(jobs, 0, Sections(report), i);
  }

  // ---------------------------------------------------------------------------
  // Display helpers

  const GrayBadge := "bg-gray-100 text-gray-800"
  const BlueBadge := "bg-blue-100 text-blue-800"
  const YellowBadge := "bg-yellow-100 text-yellow-800"
  const GreenBadge := "bg-green-100 text-green-800"

  /** `getStatusColor(status)`: a colour for every string, gray for 'draft'
      and for anything that is not a status. */
  function GetStatusColor(status: string): (r: string)
    ensures r in {GrayBadge, BlueBadge, YellowBadge, GreenBadge}
    ensures r == GrayBadge <==> status !in {"submitted", "in-progress", "completed"}
  {
    match status
    case "draft" => GrayBadge
    case "submitted" => BlueBadge
    case "in-progress" => YellowBadge
    case "completed" => GreenBadge
    case _ => GrayBadge
  }

  /** The four statuses get four different colours. */
  lemma StatusColorsDistinct(s: Status, t: Status)
    ensures GetStatusColor(StatusName(s)) == GetStatusColor(StatusName(t)) <==> s == t
  {
  }

  /** `Array.from(new Set(jobs.map(job => job.computation)))`: each
      computation id once, in order of first appearance
      (`UniqueComputationsInOrder`). */
  function UniqueComputations(jobs: seq<Job>): (r: seq<string>)
    ensures forall c :: c in r <==> exists i :: 0 <= i < |jobs| && jobs[i].computation == c
    ensures forall a, b :: 0 <= a < b < |r| ==> r[a] != r[b]
    decreases |jobs|
  {
    if jobs == [] then []
    else
      var init := jobs[..|jobs| - 1];
      var u := UniqueComputations(init);
      var c := jobs[|jobs| - 1].computation;
      assert forall i :: 0 <= i < |init| ==> init[i] == jobs[i];
      if c in u then u else u + [c]
  }

  /** A `Set` iterates in insertion order: of two listed ids, the earlier
      one occurs in the jobs before every occurrence of the later one. */
  predicate FirstAppearanceOrder(jobs: seq<Job>, r: seq<string>) {
    forall a, b, j :: 0 <= a < b < |r| && 0 <= j < |jobs| && jobs[j].computation == r[b] ==>
      exists i :: 0 <= i < j && jobs[i].computation == r[a]
  }

  lemma {:induction false} UniqueComputationsInOrder(jobs: seq<Job>)
    ensures FirstAppearanceOrder(jobs, UniqueComputations(jobs))
    decreases |jobs|
  {
    if jobs != [] {
      var init := jobs[..|jobs| - 1];
      UniqueComputationsInOrder(init);
      var u := UniqueComputations(init);
      var c := jobs[|jobs| - 1].computation;
      var r := UniqueComputations(jobs);
      assert r == if c in u then u else u + [c];
      assert FirstAppearanceOrder(init, u);
      forall a, b, j | 0 <= a < b < |r| && 0 <= j < |jobs| && jobs[j].computation == r[b]
        ensures exists i :: 0 <= i < j && jobs[i].computation == r[a]
      {
        var k: nat;
        if c in u {
          if j == |init| {
            var j' :| 0 <= j' < |init| && init[j'].computation == c;
            assert init[j'].computation == u[b];
            k :| 0 <= k < j' && init[k].computation == u[a];
          } else {
            assert init[j] == jobs[j];
            k :| 0 <= k < j && init[k].computation == u[a];
          }
        } else if b < |u| {
          assert r[b] == u[b] && u[b] != c;
          assert init[j] == jobs[j];
          k :| 0 <= k < j && init[k].computation == u[a];
        } else {
          assert r[b] == c;
          assert j == |init|;
          assert u[a] in u;
          k :| 0 <= k < |init| && init[k].computation == u[a];
        }
        assert jobs[k] == init[k];
      }
    }
  }

  /** The loop body of `DeleteEach`: delete `id` and count it when it was
      found. The store's persisted state stays the save of its list over the
      starting state once anything has been deleted. */
  method DeleteCounted(store: JobManager, id: string, deletedCount: nat, ghost start: Backend) returns (next: nat)
    requires store.Snapshot() == (if deletedCount == 0 then start else SaveJobs(start, store.jobs))
    modifies store, store.browser
    ensures store.jobs == JobsAfterDelete(old(store.jobs), id)
    ensures |store.jobs| <= |old(store.jobs)| && next == deletedCount + (|old(store.jobs)| - |store.jobs|)
    ensures store.Snapshot() == (if next == 0 then start else SaveJobs(start, store.jobs))
  {
    ghost var previous := store.jobs;
    var deleted := store.DeleteJob(id);
    next := deletedCount;
    if deleted {
      if deletedCount > 0 {
        LastSaveWins(start, previous, store.jobs);
      }
      next := deletedCount + 1;
    }
  }

  /** Appending a heading, a report and a rule appends that job's section. */
  lemma AppendSection(before: string, heading: string, n: nat, job: Job, report: Job -> string)
    requires heading == "## Job " + Decimal(n) + ": " + job.title + "\n\n"
    ensures before + heading + report(job) + "\n\n---\n\n" == before + Sections(report)(n, job)
  {
    AppendAssoc(before, heading, report(job));
    AppendAssoc(before, heading + report(job), "\n\n---\n\n");
  }

  /** The loop of `handleBatchExportMarkdown`: the header, then one section
      per job. */
  method CombinedMarkdown(date: string, data: seq<Job>, report: Job -> string) returns (combined: string)
    ensures combined == MarkdownExport(date, data, report)
  {
    combined := "# Batch Job Export Report\n\n";
    combined := combined + ("Generated on: " + date + "\n\n");
    combined := combined + ("Total Jobs: " + Decimal(|data|) + "\n\n");
    combined := combined + "---\n\n";
    assert combined == Header(date, |data|) + ConcatNumbered(data[..0], 0, Sections(report));
    var index := 0;
    while index < |data|
      invariant index <= |data|
      invariant combined == Header(date, |data|) + ConcatNumbered(data[..index], 0, Sections(report))
    {
      var job := data[index];
      ghost var before := combined;
      var heading := "## Job " + Decimal(index + 1) + ": " + job.title + "\n\n";
      combined := combined + heading;
      combined := combined + report(job);
      combined := combined + "\n\n---\n\n";
      AppendSection(before, heading, index + 1, job, report);
      ConcatNumberedSnoc(data[..index], job, 0, Sections(report));
      AppendAssoc(Header(date, |data|), ConcatNumbered(data[..index], 0, Sections(report)),
                  Sections(report)(index + 1, job));
      TakeSnoc(data, index);
      index := index + 1;
    }
    assert data[..index] == data;
  }

  /** `ids.forEach(id => { if (deleteJob(id)) deletedCount++; })`: each id is
      deleted once, in some order `order` (the set's iteration order); the
      count is the number of calls that found their job, and the store is
      persisted whenever it changed. */
  method DeleteEach(store: JobManager, ids: set<string>) returns (deletedCount: nat, ghost order: seq<string>)
    modifies store, store.browser
    ensures Elements(order) == ids && |order| == |ids|
    ensures store.jobs == DeleteAll(old(store.jobs), order)
    ensures deletedCount == |old(store.jobs)| - |store.jobs|
    ensures store.Snapshot() == (if deletedCount == 0 then old(store.Snapshot())
                                 else SaveJobs(old(store.Snapshot()), store.jobs))
  {
    deletedCount, order := 0, [];
    var rest := ids;
    while rest != {}
      invariant Elements(order) + rest == ids && Elements(order) !! rest
      invariant |order| + |rest| == |ids|
      invariant store.jobs == DeleteAll(old(store.jobs), order)
      invariant deletedCount == |old(store.jobs)| - |store.jobs|
      invariant store.Snapshot() == (if deletedCount == 0 then old(store.Snapshot())
                                     else SaveJobs(old(store.Snapshot()), store.jobs))
      decreases |rest|
    {
      var id :| id in rest;
      deletedCount := DeleteCounted(store, id, deletedCount, old(store.Snapshot()));
      MoveToDone(order, rest, ids, id);
      DeleteAllSnoc(old(store.jobs), order, id);
      order := order + [id];
      rest := rest - {id};
    }
  }

  // ---------------------------------------------------------------------------
  // The component's state

  class JobList {
    /** The `jobs` prop. */
    var jobs: seq<Job>
    /** Whether the parent passed `onJobUpdate`. */
    const hasOnJobUpdate: bool
    var filterComputation: string
    var filterStatus: string
    var selectedJobs: set<string>
    var isAllSelected: bool

    /** Mounting: both filters at 'all', nothing selected. */
    constructor (jobs: seq<Job>, hasOnJobUpdate: bool)
      ensures this.jobs == jobs && this.hasOnJobUpdate == hasOnJobUpdate
      ensures filterComputation == "all" && filterStatus == "all"
      ensures selectedJobs == {} && !isAllSelected
    {
      this.jobs := jobs;
      this.hasOnJobUpdate := hasOnJobUpdate;
      filterComputation := "all";
      filterStatus := "all";
      selectedJobs := {};
      isAllSelected := false;
    }

    /** The list as currently shown. */
    function Filtered(): seq<Job>
      reads this
    {
      FilteredJobs(jobs, filterComputation, filterStatus)
    }

    /** The effect that keeps `isAllSelected` in step with the filtered list
        and the selection. */
    method SyncAllSelected()
      modifies this`isAllSelected
      ensures isAllSelected <==> |Filtered()| > 0 && forall j :: j in Filtered() ==> j.id in selectedJobs
    {
      var filtered := Filtered();
      if |filtered| > 0 {
        isAllSelected := forall j :: j in filtered ==> j.id in selectedJobs;
      } else {
        isAllSelected := false;
      }
    }

    /** `handleSelectJob(id)`: that id's membership flips, every other id's
        stays. */
    method SelectJob(id: string)
      modifies this`selectedJobs
      ensures selectedJobs == Toggle(old(selectedJobs), id)
    {
      var next := selectedJobs;
      if id in next {
        next := next - {id};
      } else {
        next := next + {id};
      }
      selectedJobs := next;
    }

    /** `handleSelectAll()`: clears the selection when the flag says all are
        selected, otherwise selects exactly the shown ids (dropping selected
        ids the filter hides). */
    method SelectAll()
      modifies this`selectedJobs
      ensures old(isAllSelected) ==> selectedJobs == {}
      ensures !old(isAllSelected) ==> selectedJobs == IdsOf(Filtered())
    {
      if isAllSelected {
        selectedJobs := {};
      } else {
        var filtered := Filtered();
        var ids := seq(|filtered|, i requires 0 <= i < |filtered| => filtered[i].id);
        selectedJobs := set i | 0 <= i < |ids| :: ids[i];
        assert selectedJobs == IdsOf(filtered) by {
          forall x ensures x in selectedJobs <==> x in IdsOf(filtered) {
            if x in IdsOf(filtered) {
              var i :| 0 <= i < |filtered| && filtered[i].id == x;
              assert ids[i] == x;
            }
          }
        }
      }
    }

    /** `handleBatchDelete()`. Nothing happens for an empty selection or an
        unconfirmed dialog. Otherwise `deleteJob` is called once on every
        selected id, shown or not; only when something was deleted and the
        callback exists is the store's list handed to it and the selection
        cleared. */
    method BatchDelete(store: JobManager, confirmed: bool) returns (deletedCount: nat, update: Option<seq<Job>>, ghost order: seq<string>)
      modifies this`selectedJobs, store, store.browser
      ensures old(selectedJobs) == {} || !confirmed ==>
        deletedCount == 0 && update == None && order == [] &&
        store.jobs == old(store.jobs) && store.Snapshot() == old(store.Snapshot()) &&
        selectedJobs == old(selectedJobs)
      ensures old(selectedJobs) != {} && confirmed ==>
        Elements(order) == old(selectedJobs) && |order| == |old(selectedJobs)| &&
        store.jobs == DeleteAll(old(store.jobs), order) &&
        deletedCount == |old(store.jobs)| - |store.jobs| &&
        store.Snapshot() == (if deletedCount == 0 then old(store.Snapshot())
                             else SaveJobs(old(store.Snapshot()), store.jobs)) &&
        (if deletedCount > 0 && hasOnJobUpdate
         then update == Some(store.jobs) && selectedJobs == {}
         else update == None && selectedJobs == old(selectedJobs))
    {
      deletedCount, update, order := 0, None, [];
      if selectedJobs == {} || !confirmed {
        return;
      }
      deletedCount, order := DeleteEach(store, selectedJobs);
      if deletedCount > 0 && hasOnJobUpdate {
        var list := store.GetJobs();
        update := Some(list);
        selectedJobs := {};
      }
    }

    /** `handleBatchExportMarkdown()`: nothing for an empty selection,
        otherwise the combined report of the shown and selected jobs. */
    method BatchExportMarkdown(date: string, report: Job -> string) returns (r: Option<string>)
      ensures selectedJobs == {} <==> r.None?
      ensures r.Some? ==> r.value == MarkdownExport(date, ExportSelection(Filtered(), selectedJobs), report)
    {
      if selectedJobs == {} {
        return None;
      }
      var data := ExportSelection(Filtered(), selectedJobs);
      var combined := CombinedMarkdown(date, data, report);
      r := Some(combined);
    }

    /** `handleBatchExportPDF()`: nothing for an empty selection, otherwise
        one document per shown and selected job, in list order. */
    method BatchExportPdf(pdf: Job -> string) returns (docs: Option<seq<string>>)
      ensures selectedJobs == {} <==> docs.None?
      ensures docs.Some? ==>
        var data := ExportSelection(Filtered(), selectedJobs);
        |docs.value| == |data| && forall i :: 0 <= i < |data| ==> docs.value[i] == pdf(data[i])
    {
      if selectedJobs == {} {
        return None;
      }
      var data := ExportSelection(Filtered(), selectedJobs);
      var out := [];
      for index := 0 to |data|
        invariant |out| == index
        invariant forall i :: 0 <= i < index ==> out[i] == pdf(data[i])
      {
        out := out + [pdf(data[index])];
      }
      docs := Some(out);
    }

    /** `handleStatusChange(id, status)`: the store's update, and its new list
        for the callback when a job was updated and the callback exists. */
    method StatusChange(store: JobManager, id: string, status: Status) returns (update: Option<seq<Job>>)
      modifies store, store.browser
      ensures FindJobIndex(old(store.jobs), id).None? ==>
        update == None && store.jobs == old(store.jobs) && store.Snapshot() == old(store.Snapshot())
      ensures FindJobIndex(old(store.jobs), id).Some? ==>
        var i := FindJobIndex(old(store.jobs), id).value;
        store.jobs == old(store.jobs)[i := old(store.jobs)[i].(status := status)] &&
        store.Snapshot() == SaveJobs(old(store.Snapshot()), store.jobs) &&
        update == (if hasOnJobUpdate then Some(store.jobs) else None)
    {
      var updated := store.UpdateJobStatus(id, status);
      update := None;
      if updated.Some? && hasOnJobUpdate {
        var list := store.GetJobs();
        update := Some(list);
      }
    }

    /** `handleDeleteJob(id)`: after confirmation, the store's delete, and
        its new list for the callback when a job was removed and the callback
        exists. */
    method DeleteOne(store: JobManager, id: string, confirmed: bool) returns (update: Option<seq<Job>>)
      modifies store, store.browser
      ensures !confirmed ==> update == None && store.jobs == old(store.jobs) && store.Snapshot() == old(store.Snapshot())
      ensures confirmed ==> store.jobs == JobsAfterDelete(old(store.jobs), id)
      ensures confirmed ==>
        store.Snapshot() == (if FindJobIndex(old(store.jobs), id).Some? then SaveJobs(old(store.Snapshot()), store.jobs)
                             else old(store.Snapshot()))
      ensures update.Some? <==> confirmed && hasOnJobUpdate && FindJobIndex(old(store.jobs), id).Some?
      ensures update.Some? ==> update.value == store.jobs
    {
      update := None;
      if confirmed {
        var success := store.DeleteJob(id);
        if success && hasOnJobUpdate {
          var list := store.GetJobs();
          update := Some(list);
        }
      }
    }
  }
}
