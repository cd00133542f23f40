/** The settings dialog (`src/components/SettingsModal.tsx`): reading the
    saved settings when it opens, switching the storage backend, the
    auto-backup switch, importing a jobs file, restoring the backup and
    clearing all data. Every handler works on the browser storages directly
    or through `saveJobsToStorage`; none of them changes the store's
    in-memory list, which the page shows after `onStorageChange`. The file
    chooser and `FileReader` are replaced by the parsed file handed in as a
    value; `window.confirm` is a boolean input. */
module SettingsModal {
  import opened Wrappers
  import opened JobTypes
  import opened Storage
  import opened JobManager

  // ---------------------------------------------------------------------------
  // Reading the settings

  /** The storage type the dialog shows: the stored flag as it is, or
      'localStorage' when it is absent or empty. */
  function SavedStorageType(local: Store): string {
    match GetText(local, StorageTypeKey)
    case Some(t) => if t != "" then t else "localStorage"
    case None => "localStorage"
  }

  /** The auto-backup switch as the dialog reads it: on only when the flag is
      exactly 'true'. */
  function SavedAutoBackup(local: Store): bool {
    GetText(local, AutoBackupKey) == Some("true")
  }

  /** The dialog and the adapter agree on the storage type. */
  lemma DialogShowsActiveBackend(local: Store)
    ensures SavedStorageType(local) == StorageType(true, local)
  {
  }

  /** The dialog and the adapter disagree on auto-backup exactly when the
      flag is neither 'true' nor 'false'; in particular an absent flag shows
      as off while the adapter keeps backing up. */
  lemma AutoBackupReadings(local: Store)
    ensures SavedAutoBackup(local) ==> AdapterAutoBackup(local)
    ensures SavedAutoBackup(local) != AdapterAutoBackup(local) <==>
            GetText(local, AutoBackupKey) !in {Some("true"), Some("false")}
    ensures AutoBackupKey !in local ==> !SavedAutoBackup(local) && AdapterAutoBackup(local)
  {
  }

  /** `b.toString()`. */
  function BoolText(b: bool): string {
    if b then "true" else "false"
  }

  /** A flag the dialog wrote reads back the same in the dialog and in the
      adapter. */
  lemma WrittenFlagReadsBack(local: Store, on: bool)
    ensures SavedAutoBackup(local[AutoBackupKey := Text(BoolText(on))]) == on
    ensures AdapterAutoBackup(local[AutoBackupKey := Text(BoolText(on))]) == on
  {
  }

  /** localStorage after a backend switch to `newType` with the switch at
      `autoBackup` and the store holding `jobs`. */
  function SwitchedLocal(local: Store, newType: string, autoBackup: bool, jobs: seq<Job>): Store {
    var flags := local[StorageTypeKey := Text(newType)][AutoBackupKey := Text(BoolText(autoBackup))];
    if |jobs| > 0 then flags[BackupKey := JobArray(jobs)] else flags
  }

  /** After a switch the adapter uses the chosen backend (an empty choice
      means localStorage), reads auto-backup as the dialog showed it, and the
      backup key holds the store's list when it was not empty. */
  lemma SwitchTakesEffect(local: Store, newType: string, autoBackup: bool, jobs: seq<Job>)
    ensures var l := SwitchedLocal(local, newType, autoBackup, jobs);
      StorageType(true, l) == (if newType == "" then "localStorage" else newType) &&
      AdapterAutoBackup(l) == autoBackup && SavedAutoBackup(l) == autoBackup &&
      (|jobs| > 0 ==> BackupKey in l && l[BackupKey] == JobArray(jobs)) &&
      (|jobs| == 0 ==> GetText(l, BackupKey) == GetText(local, BackupKey))
  {
  }

  /** The list is not carried over by the switch itself: the store keeps it
      in memory, and the next save writes it into the new backend. */
  lemma SwitchMovesListOnNextSave(b: Backend, newType: string, autoBackup: bool, jobs: seq<Job>)
    requires b.hasWindow
    ensures var switched := b.(local := SwitchedLocal(b.local, newType, autoBackup, jobs));
      LoadJobs(SaveJobs(switched, jobs)) == jobs
  {
    SaveThenLoad(b.(local := SwitchedLocal(b.local, newType, autoBackup, jobs)), jobs);
  }

  // ---------------------------------------------------------------------------
  // Import and restore

  /** What reading the chosen file gives: text that is not JSON, JSON that is
      not an array, or an array whose elements are job records (`None` for an
      element that is not a record with an id and a title). */
  datatype ImportFile =
    | Unparseable
    | NotAnArray
    | Entries(entries: seq<Option<Job>>)

  /** The shape check of the import: every element has a non-empty id and a
      non-empty title (an empty array passes). */
  predicate ValidEntries(entries: seq<Option<Job>>) {
    forall i :: 0 <= i < |entries| ==> entries[i].Some? && entries[i].value.id != "" && entries[i].value.title != ""
  }

  /** The records of entries that passed the check. */
  function Records(entries: seq<Option<Job>>): (r: seq<Job>)
    requires ValidEntries(entries)
    ensures |r| == |entries|
    ensures forall i :: 0 <= i < |r| ==> Some(r[i]) == entries[i] && r[i].id != "" && r[i].title != ""
  {
    seq(|entries|, i requires 0 <= i < |entries| && ValidEntries(entries) => entries[i].value)
  }

  datatype ImportOutcome = NoFile | ReadError | InvalidFormat | Declined | Imported(count: nat)

  datatype RestoreOutcome = NoBackup | RestoreError | RestoreDeclined | Restored(count: nat)

  /** What `handleRestoreBackup` finds under the backup key: `None` when there
      is no backup (absent or empty), otherwise the list or an error. */
  function BackupContents(local: Store): (r: Option<Option<seq<Job>>>)
    ensures r.None? <==> GetText(local, BackupKey) in {None, Some("")}
    ensures r == Some(None) <==> BackupKey in local && local[BackupKey] != Text("") && !local[BackupKey].JobArray?
  {
    if BackupKey !in local then None
    else match local[BackupKey]
      case Text(t) => if t == "" then None else Some(None)
      case JobArray(jobs) => Some(Some(jobs))
      case ProjectArray(_) => Some(None)
  }

  /** Importing overwrites the active backend with the file's records, but
      the store's list is not reloaded: the next save of that list wipes the
      import out. */
  lemma ImportLostOnNextSave(b: Backend, imported: seq<Job>, jobs: seq<Job>)
    requires b.hasWindow
    ensures LoadJobs(SaveJobs(b, imported)) == imported
    ensures SaveJobs(SaveJobs(b, imported), jobs) == SaveJobs(b, jobs)
  {
    SaveThenLoad(b, imported);
    LastSaveWins(b, imported, jobs);
  }

  /** A backup whose records have an empty id is restored, while an import
      of the same records is refused. */
  lemma RestoreSkipsTheCheck(job: Job)
    requires job.id == ""
    ensures !ValidEntries([Some(job)])
    ensures BackupContents(map[BackupKey := JobArray([job])]) == Some(Some([job]))
  {
    assert [Some(job)][0].value.id == "";
  }

  // ---------------------------------------------------------------------------
  // Clear-all

  /** localStorage after clear-all: the jobs key and the backup key go. */
  function ClearedLocal(local: Store): (r: Store)
    ensures JobsKey !in r && BackupKey !in r
    ensures forall k :: k in local && k != JobsKey && k != BackupKey ==> k in r && r[k] == local[k]
    ensures forall k :: k in r ==> k in local
  {
    local - {JobsKey, BackupKey}
  }

  /** After clear-all, in localStorage mode the stored list is empty but the
      store still holds its list, and the next job created puts the whole old
      list back next to it. */
  lemma ClearedJobsComeBack(b: Backend, jobs: seq<Job>, job: Job)
    requires b.hasWindow && GetText(b.local, StorageTypeKey) == Some("localStorage")
    ensures var cleared := b.(local := ClearedLocal(b.local), session := b.session - {JobsKey});
      LoadJobs(cleared) == [] &&
      ReadJobs(SaveJobs(cleared, jobs + [job]).local) == jobs + [job]
  {
    var cleared := b.(local := ClearedLocal(b.local), session := b.session - {JobsKey});
    assert GetText(cleared.local, StorageTypeKey) == Some("localStorage");
    SaveThenLoad(cleared, jobs + [job]);
  }

  // ---------------------------------------------------------------------------
  // The dialog's state

  class SettingsModal {
    const browser: Browser
    var storageType: string
    var autoBackup: bool

    /** The initial state before the open effect runs. */
    constructor (b: Browser)
      ensures browser == b && storageType == "localStorage" && autoBackup
    {
      browser := b;
      storageType := "localStorage";
      autoBackup := true;
    }

    /** The effect that runs when the dialog opens: in a browser, the two
        settings are read from localStorage. */
    method Open()
      modifies this`storageType, this`autoBackup
      ensures browser.hasWindow ==>
        storageType == SavedStorageType(browser.local) && autoBackup == SavedAutoBackup(browser.local)
      ensures !browser.hasWindow ==> storageType == old(storageType) && autoBackup == old(autoBackup)
    {
      if browser.hasWindow {
        var saved := GetText(browser.local, StorageTypeKey);
        storageType := if saved.Some? && saved.value != "" then saved.value else "localStorage";
        autoBackup := GetText(browser.local, AutoBackupKey) == Some("true");
      }
    }

    /** `handleStorageTypeChange(newType)`: the type flag and the auto-backup
        flag are written; when the store's list is not empty it is copied to
        the backup key, the session jobs key is removed if the previous type
        was sessionStorage, and the page is told to refresh. The store's list
        and the in-memory backend are untouched. */
    method StorageTypeChange(store: JobManager, newType: string) returns (refresh: bool)
      requires store.browser == browser && browser.hasWindow
      modifies this`storageType, browser
      ensures storageType == newType
      ensures refresh <==> |store.jobs| > 0
      ensures browser.local == SwitchedLocal(old(browser.local), newType, old(autoBackup), store.jobs)
      ensures browser.session ==
        if |store.jobs| > 0 && old(storageType) == "sessionStorage"
        then old(browser.session) - {JobsKey} else old(browser.session)
    {
      var currentJobs := store.GetJobs();
      browser.local := browser.local[StorageTypeKey := Text(newType)];
      browser.local := browser.local[AutoBackupKey := Text(BoolText(autoBackup))];
      if |currentJobs| > 0 {
        browser.local := browser.local[BackupKey := JobArray(currentJobs)];
        if storageType == "sessionStorage" {
          browser.session := browser.session - {JobsKey};
        }
        storageType := newType;
        refresh := true;
      } else {
        storageType := newType;
        refresh := false;
      }
    }

    /** The auto-backup checkbox: the switch and its flag follow the box. */
    method SetAutoBackup(checked: bool)
      requires browser.hasWindow
      modifies this`autoBackup, browser`local
      ensures autoBackup == checked
      ensures browser.local == old(browser.local)[AutoBackupKey := Text(BoolText(checked))]
    {
      autoBackup := checked;
      browser.local := browser.local[AutoBackupKey := Text(BoolText(checked))];
    }

    /** `handleImportData`: a file that cannot be read or does not pass the
        shape check writes nothing; a valid one is saved through the adapter
        over the active backend after confirmation. */
    method ImportData(store: JobManager, file: Option<ImportFile>, confirmed: bool) returns (outcome: ImportOutcome)
      requires store.browser == browser && browser.hasWindow
      modifies store, browser
      ensures store.jobs == old(store.jobs)
      ensures outcome == (match file
        case None => NoFile
        case Some(Unparseable) => ReadError
        case Some(NotAnArray) => InvalidFormat
        case Some(Entries(entries)) =>
          if !ValidEntries(entries) then InvalidFormat
          else if !confirmed then Declined
          else Imported(|entries|))
      ensures outcome.Imported? ==>
        file.Some? && file.value.Entries? && ValidEntries(file.value.entries) &&
        store.Snapshot() == SaveJobs(old(store.Snapshot()), Records(file.value.entries))
      ensures !outcome.Imported? ==> store.Snapshot() == old(store.Snapshot())
    {
      if file.None? {
        return NoFile;
      }
      match file.value
      case Unparseable =>
        outcome := ReadError;
      case NotAnArray =>
        outcome := InvalidFormat;
      case Entries(entries) =>
        if !ValidEntries(entries) {
          outcome := InvalidFormat;
        } else if !confirmed {
          outcome := Declined;
        } else {
          store.SaveJobsToStorage(Records(entries));
          outcome := Imported(|entries|);
        }
    }

    /** `handleRestoreBackup`: with no backup nothing happens; a backup that
        is not a list is an error; otherwise, after confirmation, the backup
        list is saved over the active backend, with no check of ids or
        titles. */
    method RestoreBackup(store: JobManager, confirmed: bool) returns (outcome: RestoreOutcome)
      requires store.browser == browser && browser.hasWindow
      modifies store, browser
      ensures store.jobs == old(store.jobs)
      ensures outcome == (match BackupContents(old(browser.local))
        case None => NoBackup
        case Some(None) => RestoreError
        case Some(Some(jobs)) => if confirmed then Restored(|jobs|) else RestoreDeclined)
      ensures outcome.Restored? ==>
        store.Snapshot() == SaveJobs(old(store.Snapshot()), old(browser.local)[BackupKey].jobs)
      ensures !outcome.Restored? ==> store.Snapshot() == old(store.Snapshot())
    {
      var backup := BackupContents(browser.local);
      match backup
      case None =>
        outcome := NoBackup;
      case Some(None) =>
        outcome := RestoreError;
      case Some(Some(jobs)) =>
        if confirmed {
          store.SaveJobsToStorage(jobs);
          outcome := Restored(|jobs|);
        } else {
          outcome := RestoreDeclined;
        }
    }

    /** `handleClearData`: after confirmation the jobs key goes from both
        browser storages and the backup key from localStorage; the flags, the
        in-memory backend and the store's list stay. */
    method ClearData(confirmed: bool)
      requires browser.hasWindow
      modifies browser
      ensures confirmed ==> browser.local == ClearedLocal(old(browser.local)) &&
                            browser.session == old(browser.session) - {JobsKey}
      ensures !confirmed ==> browser.local == old(browser.local) && browser.session == old(browser.session)
    {
      if confirmed {
        browser.local := browser.local - {JobsKey};
        browser.session := browser.session - {JobsKey};
        browser.local := browser.local - {BackupKey};
      }
    }
  }

  /** Clear-all followed by a submission, as the page runs them: the store's
      list survives the clear and comes back in localStorage with the new
      job. */
  method ClearThenSubmit(dialog: SettingsModal, store: JobManager, d: JobDraft, id: string, now: string)
    returns (job: Job)
    requires store.browser == dialog.browser && dialog.browser.hasWindow
    requires GetText(dialog.browser.local, StorageTypeKey) == Some("localStorage")
    modifies store, dialog.browser
    ensures ReadJobs(dialog.browser.local) == old(store.jobs) + [job]
  {
    dialog.ClearData(true);
    ghost var cleared := store.Snapshot();
    assert GetText(cleared.local, StorageTypeKey) == Some("localStorage");
    job := store.SaveJob(d, id, now);
    SaveThenLoad(cleared, store.jobs);
  }
}
